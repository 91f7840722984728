/**
  Recovery from a provider that rejects an input as too long: the oldest conversation
  segment is evicted and the call repeated, at most three times.
 */
module ContextRecovery {
  import opened Wrappers
  import opened ModelMessages
  import opened Seqs

  const MAX_RECOVERY_ATTEMPTS: nat := 3

  /** Stands for the fixed checkpoint prompt of a compaction request. */
  const COMPACTION_PROMPT := "CHECKPOINT COMPACTION"

  predicate IsPrompt(m: Message)
  {
    HasRole(m, User) && m.content == COMPACTION_PROMPT && m.toolCalls == []
  }

  // ---------------------------------------------------------------- one eviction

  /** Number of leading system messages. */
  function SystemPrefix(input: Messages): (n: nat)
    ensures n <= |input|
  {
    if input != [] && HasRole(input[0], System) then 1 + SystemPrefix(input[1..]) else 0
  }

  lemma {:induction false} SystemPrefixMeaning(input: Messages)
    ensures var n := SystemPrefix(input);
            && (forall i :: 0 <= i < n ==> HasRole(input[i], System))
            && (n < |input| ==> !HasRole(input[n], System))
    decreases |input|
  {
    if input != [] && HasRole(input[0], System) {
      SystemPrefixMeaning(input[1..]);
      assert forall i :: 0 < i < |input| ==> input[i] == input[1..][i - 1];
    }
  }

  /** Number of leading tool messages. */
  function ToolRun(input: Messages): (n: nat)
    ensures n <= |input|
  {
    if input != [] && HasRole(input[0], Tool) then 1 + ToolRun(input[1..]) else 0
  }

  lemma {:induction false} ToolRunMeaning(input: Messages)
    ensures var n := ToolRun(input);
            && (forall i :: 0 <= i < n ==> HasRole(input[i], Tool))
            && (n < |input| ==> !HasRole(input[n], Tool))
    decreases |input|
  {
    if input != [] && HasRole(input[0], Tool) {
      ToolRunMeaning(input[1..]);
      assert forall i :: 0 < i < |input| ==> input[i] == input[1..][i - 1];
    }
  }

  predicate Spoken(m: Message) { m.Message? && m.role != System }

  /** Position of the newest message that is neither nil nor system, -1 when there is none. */
  function NewestSpoken(input: Messages): (k: int)
    ensures -1 <= k < |input|
  {
    if input == [] then -1
    else if Spoken(input[|input| - 1]) then |input| - 1
    else NewestSpoken(input[..|input| - 1])
  }

  lemma {:induction false} NewestSpokenMeaning(input: Messages)
    ensures var k := NewestSpoken(input);
            && (k >= 0 ==> Spoken(input[k]))
            && (forall i :: k < i < |input| ==> !Spoken(input[i]))
    decreases |input|
  {
    if input != [] && !Spoken(input[|input| - 1]) {
      NewestSpokenMeaning(input[..|input| - 1]);
      assert forall i :: 0 <= i < |input| - 1 ==> input[i] == input[..|input| - 1][i];
    }
  }

  /** Position after the part that may be evicted. */
  function EvictableEnd(input: Messages, keepPrompt: bool): nat
  {
    if keepPrompt && |input| > SystemPrefix(input) && IsPrompt(input[|input| - 1]) then |input| - 1 else |input|
  }

  /** Length of the oldest segment: one message, or a tool request with its run of results. */
  function OldestSegment(input: Messages, start: nat, end: nat): (n: nat)
    requires start < end <= |input|
    ensures 1 <= n <= end - start
  {
    if AsksTools(input[start]) then 1 + ToolRun(input[start + 1..end]) else 1
  }

  /** projectEinoAssistantEvictOldestModelHistory: the shorter input, or None when nothing may go. */
  function Evicted(input: Messages, keepPrompt: bool): Option<Messages>
  {
    var start := SystemPrefix(input);
    var end := EvictableEnd(input, keepPrompt);
    if start >= end then None
    else
      var newest := NewestSpoken(input[..end]);
      var removeEnd := start + OldestSegment(input, start, end);
      if !keepPrompt && (newest <= start || removeEnd > newest) then None
      else Some(input[..start] + input[removeEnd..])
  }

  method CountSystemPrefix(input: Messages) returns (start: nat)
    ensures start == SystemPrefix(input)
  {
    start := 0;
    while start < |input| && HasRole(input[start], System)
      invariant start <= |input|
      invariant SystemPrefix(input) == start + SystemPrefix(input[start..])
    {
      assert input[start..][1..] == input[start + 1..];
      start := start + 1;
    }
  }

  method FindNewestSpoken(input: Messages, start: nat, end: nat) returns (newest: int)
    requires start < end <= |input|
    ensures newest >= start ==> newest == NewestSpoken(input[..end])
    ensures newest < start ==> NewestSpoken(input[..end]) < start
  {
    newest := end - 1;
    while newest >= start && !Spoken(input[newest])
      invariant start - 1 <= newest < end
      invariant forall i :: newest < i < end ==> !Spoken(input[i])
    {
      newest := newest - 1;
    }
    NewestSpokenIs(input[..end], start, newest);
  }

  method MeasureSegment(input: Messages, start: nat, end: nat) returns (removeEnd: nat)
    requires start < end <= |input|
    ensures removeEnd == start + OldestSegment(input, start, end)
  {
    removeEnd := start + 1;
    if AsksTools(input[start]) {
      while removeEnd < end && HasRole(input[removeEnd], Tool)
        invariant start < removeEnd <= end
        invariant ToolRun(input[start + 1..end]) == removeEnd - (start + 1) + ToolRun(input[removeEnd..end])
      {
        assert input[removeEnd..end][1..] == input[removeEnd + 1..end];
        removeEnd := removeEnd + 1;
      }
    }
  }

  method EvictOldestModelHistory(input: Messages, keepPrompt: bool) returns (trimmed: Messages, ok: bool)
    ensures Evicted(input, keepPrompt) == if ok then Some(trimmed) else None
    ensures !ok ==> trimmed == input
  {
    hide SystemPrefix, OldestSegment, NewestSpoken, IsPrompt;
    if |input| == 0 {
      return input, false;
    }
    var start := CountSystemPrefix(input);
    var end := |input|;
    if keepPrompt && end > start && IsPrompt(input[end - 1]) {
      end := end - 1;
    }
    if start >= end {
      return input, false;
    }
    var newest := end - 1;
    if !keepPrompt {
      newest := FindNewestSpoken(input, start, end);
      if newest <= start {
        return input, false;
      }
    }
    var removeEnd := MeasureSegment(input, start, end);
    if !keepPrompt && removeEnd > newest {
      return input, false;
    }
    return input[..start] + input[removeEnd..], true;
  }

  lemma NewestSpokenIs(input: Messages, start: int, newest: int)
    requires 0 <= start <= |input| && start - 1 <= newest < |input|
    requires newest >= start ==> Spoken(input[newest])
    requires forall i :: newest < i < |input| ==> !Spoken(input[i])
    ensures newest >= start ==> NewestSpoken(input) == newest
    ensures newest < start ==> NewestSpoken(input) < start
  {
    NewestSpokenMeaning(input);
  }

  // ---------------------------------------------------------------- what one eviction keeps

  predicate IsSystem(m: Message) { HasRole(m, System) }

  predicate NotSystem(m: Message) { !HasRole(m, System) }

  function Systems(input: Messages): Messages { Filter(input, IsSystem) }

  /** Everything that is not a system message, nil entries included. */
  function Others(input: Messages): Messages { Filter(input, NotSystem) }

  /** The newest message that is neither nil nor system. */
  function Newest(input: Messages): Option<Message>
  {
    var k := NewestSpoken(input);
    if k < 0 then None else Some(input[k])
  }

  /** The tools at the head of `tail` answer `calls` one by one. */
  predicate AnsweredBy(calls: nat, ids: seq<string>, tail: Messages)
  {
    && calls == |ids| && calls <= |tail|
    && forall k :: 0 <= k < calls ==> HasRole(tail[k], Tool) && tail[k].toolCallID == ids[k]
  }

  function CallIDs(m: Message): (ids: seq<string>)
    requires m.Message?
    ensures |ids| == |m.toolCalls|
  {
    seq(|m.toolCalls|, i requires 0 <= i < |m.toolCalls| => m.toolCalls[i].id)
  }

  /** Every tool request is followed at once by its results, and no result stands elsewhere. */
  predicate Paired(input: Messages)
    decreases |input|
  {
    if input == [] then true
    else if AsksTools(input[0]) then
      && AnsweredBy(|input[0].toolCalls|, CallIDs(input[0]), input[1..])
      && Paired(input[1 + |input[0].toolCalls|..])
    else !HasRole(input[0], Tool) && Paired(input[1..])
  }

  /** Length of the segment an eviction cuts out behind the system prefix. */
  function CutLength(input: Messages, keepPrompt: bool): nat
    requires Evicted(input, keepPrompt).Some?
  {
    OldestSegment(input, SystemPrefix(input), EvictableEnd(input, keepPrompt))
  }

  /** An eviction cuts one non-empty segment without system messages out after the system prefix. */
  lemma EvictedCut(input: Messages, keepPrompt: bool)
    requires Evicted(input, keepPrompt).Some?
    ensures var i, n := SystemPrefix(input), CutLength(input, keepPrompt);
            && 1 <= n && i + n <= EvictableEnd(input, keepPrompt) <= |input|
            && Evicted(input, keepPrompt) == Some(input[..i] + input[i + n..])
  {
    hide SystemPrefix, OldestSegment, NewestSpoken, IsPrompt;
  }

  lemma CutShape(input: Messages, keepPrompt: bool) returns (a: Messages, b: Messages, c: Messages)
    requires Evicted(input, keepPrompt).Some?
    ensures input == a + (b + c) && Evicted(input, keepPrompt).value == a + c && b != []
    ensures |a| == SystemPrefix(input) && |b| == CutLength(input, keepPrompt)
    ensures forall i :: 0 <= i < |a| ==> IsSystem(a[i])
    ensures forall i :: 0 <= i < |b| ==> NotSystem(b[i])
  {
    hide Evicted, CutLength, IsSystem, NotSystem;
    EvictedCut(input, keepPrompt);
    var i, n := SystemPrefix(input), CutLength(input, keepPrompt);
    a, b, c := input[..i], input[i..i + n], input[i + n..];
    SplitThree(input, i, i + n);
    PrefixIsSystem(input);
    CutHasNoSystem(input, keepPrompt);
    SliceAll(input, 0, i, IsSystem);
    SliceAll(input, i, i + n, NotSystem);
  }

  lemma PrefixIsSystem(input: Messages)
    ensures forall i :: 0 <= i < SystemPrefix(input) ==> IsSystem(input[i])
  {
    SystemPrefixMeaning(input);
  }

  lemma CutHasNoSystem(input: Messages, keepPrompt: bool)
    requires Evicted(input, keepPrompt).Some?
    ensures forall i :: SystemPrefix(input) <= i < SystemPrefix(input) + CutLength(input, keepPrompt) ==>
              i < |input| && NotSystem(input[i])
  {
    hide OldestSegment, NewestSpoken;
    SystemPrefixMeaning(input);
    SegmentShape(input, SystemPrefix(input), EvictableEnd(input, keepPrompt));
  }

  lemma CutBeforeNewest(input: Messages)
    requires Evicted(input, false).Some?
    ensures SystemPrefix(input) + CutLength(input, false) <= NewestSpoken(input)
  {
    assert input[..|input|] == input;
  }

  lemma SegmentShape(input: Messages, start: nat, end: nat)
    requires start < end <= |input| && NotSystem(input[start])
    ensures forall i :: start <= i < start + OldestSegment(input, start, end) ==> NotSystem(input[i])
  {
    var n := OldestSegment(input, start, end);
    ToolRunMeaning(input[start + 1..end]);
    forall i | start <= i < start + n
      ensures NotSystem(input[i])
    {
      if i > start {
        assert HasRole(input[start + 1..end][i - start - 1], Tool);
      }
    }
  }

  /** One retry keeps every system message, in order, and a strictly shorter suffix of the rest. */
  lemma EvictionKeeps(input: Messages, keepPrompt: bool)
    requires Evicted(input, keepPrompt).Some?
    ensures var out := Evicted(input, keepPrompt).value;
            && Systems(out) == Systems(input)
            && |Others(out)| < |Others(input)|
            && Others(out) == Others(input)[|Others(input)| - |Others(out)|..]
  {
    hide Evicted, Filter, NewestSpoken, SystemPrefix, CutLength;
    var a, b, c := CutShape(input, keepPrompt);
    FilterAll(a, IsSystem);
    FilterNone(a, NotSystem);
    FilterAll(b, NotSystem);
    FilterNone(b, IsSystem);
    hide IsSystem, NotSystem;
    FilterConcat(a, b + c, IsSystem);
    FilterConcat(b, c, IsSystem);
    FilterConcat(a, c, IsSystem);
    FilterConcat(a, b + c, NotSystem);
    FilterConcat(b, c, NotSystem);
    FilterConcat(a, c, NotSystem);
    assert Others(input) == b + Others(a + c);
  }

  /** Ordinary recovery keeps the newest message, compaction keeps its prompt. */
  lemma EvictionKeepsNewest(input: Messages, keepPrompt: bool)
    requires Evicted(input, keepPrompt).Some?
    ensures var out := Evicted(input, keepPrompt).value;
            && (!keepPrompt ==> Newest(input).Some? && Newest(out) == Newest(input))
            && (keepPrompt && IsPrompt(input[|input| - 1]) ==> out != [] && IsPrompt(out[|out| - 1]))
  {
    hide Evicted, IsPrompt, CutLength;
    var a, b, c := CutShape(input, keepPrompt);
    EvictedCut(input, keepPrompt);
    var out := a + c;
    assert forall i :: |a| <= i < |out| ==> out[i] == input[i + |b|];
    if !keepPrompt {
      CutBeforeNewest(input);
      NewestSpokenMeaning(input);
      var newest := NewestSpoken(input);
      assert out[newest - |b|] == input[newest];
      NewestSpokenIs(out, newest - |b|, newest - |b|);
    }
  }

  lemma {:induction false} PairedConcat(a: Messages, b: Messages)
    requires forall i :: 0 <= i < |a| ==> !AsksTools(a[i]) && !HasRole(a[i], Tool)
    ensures Paired(a + b) <==> Paired(b)
    decreases |a|
  {
    if a == [] {
      assert a + b == b;
    } else {
      assert (a + b)[1..] == a[1..] + b;
      PairedConcat(a[1..], b);
    }
  }

  lemma ToolRunIs(input: Messages, n: nat)
    requires n <= |input| && (forall i :: 0 <= i < n ==> HasRole(input[i], Tool))
    requires n < |input| ==> !HasRole(input[n], Tool)
    ensures ToolRun(input) == n
  {
    ToolRunMeaning(input);
  }

  /** In a paired input the run of results is exactly as long as the request. */
  lemma RunIsAnswers(input: Messages, end: nat)
    requires Paired(input) && input != [] && AsksTools(input[0]) && 1 <= end <= |input|
    requires end == |input| || (end == |input| - 1 && IsPrompt(input[end]))
    ensures ToolRun(input[1..end]) == |input[0].toolCalls|
  {
    var k := |input[0].toolCalls|;
    assert forall i :: 0 <= i < k ==> HasRole(input[1..][i], Tool) && input[1..][i] == input[1 + i];
    var tail := input[1 + k..];
    assert tail != [] ==> tail[0] == input[1 + k] && !HasRole(tail[0], Tool);
    assert end == |input| - 1 ==> k <= end - 1;
    hide Paired, CallIDs, IsPrompt;
    ToolRunIs(input[1..end], k);
  }

  /** A paired input stays paired. */
  lemma EvictionKeepsPairing(input: Messages, keepPrompt: bool)
    requires Paired(input) && Evicted(input, keepPrompt).Some?
    ensures Paired(Evicted(input, keepPrompt).value)
  {
    hide Evicted, Paired, CutLength, AsksTools, NotSystem;
    var a, b, c := CutShape(input, keepPrompt);
    SystemsAskNothing(a);
    PairedConcat(a, b + c);
    PairedConcat(a, c);
    PairedCut(input, keepPrompt, b + c);
    assert (b + c)[|b|..] == c;
  }

  lemma SystemsAskNothing(a: Messages)
    requires forall i :: 0 <= i < |a| ==> IsSystem(a[i])
    ensures forall i :: 0 <= i < |a| ==> !AsksTools(a[i]) && !HasRole(a[i], Tool)
  {}

  /** The cut takes a whole request with its results, or a message that asks nothing. */
  lemma PairedCut(input: Messages, keepPrompt: bool, rest: Messages)
    requires Evicted(input, keepPrompt).Some? && Paired(rest)
    requires rest == input[SystemPrefix(input)..]
    ensures CutLength(input, keepPrompt) <= |rest| && Paired(rest[CutLength(input, keepPrompt)..])
  {
    hide *;
    var start, end := SystemPrefix(input), EvictableEnd(input, keepPrompt);
    EvictedCut(input, keepPrompt);
    EndIsPrompt(input, keepPrompt);
    CutLengthIs(input, keepPrompt);
    assert rest[0] == input[start];
    PairedHead(rest);
    if AsksTools(rest[0]) {
      assert end < |input| ==> rest[end - start] == input[end];
      RunIsAnswers(rest, end - start);
      SliceOfSuffix(input, start, 1, end - start);
    }
  }

  lemma CutLengthIs(input: Messages, keepPrompt: bool)
    requires Evicted(input, keepPrompt).Some?
    ensures var start, end := SystemPrefix(input), EvictableEnd(input, keepPrompt);
            && start < end <= |input|
            && CutLength(input, keepPrompt)
               == if AsksTools(input[start]) then 1 + ToolRun(input[start + 1..end]) else 1
  {
    hide SystemPrefix, ToolRun, NewestSpoken, IsPrompt, AsksTools;
  }

  lemma EndIsPrompt(input: Messages, keepPrompt: bool)
    ensures var end := EvictableEnd(input, keepPrompt);
            end == |input| || (end == |input| - 1 && IsPrompt(input[end]))
  {}

  lemma PairedHead(rest: Messages)
    requires rest != [] && Paired(rest)
    ensures AsksTools(rest[0]) ==> 1 + |rest[0].toolCalls| <= |rest| && Paired(rest[1 + |rest[0].toolCalls|..])
    ensures !AsksTools(rest[0]) ==> Paired(rest[1..])
  {}

  // ---------------------------------------------------------------- exactly when something goes

  /** Messages `s` to `s + n` are the first segment: all in front is system, and a request has all its results with it. */
  predicate FirstSegment(input: Messages, s: nat, n: nat)
  {
    && n >= 1 && s + n <= |input|
    && (forall i :: 0 <= i < s ==> input[i].Message? && input[i].role == System)
    && (input[s].Message? ==> input[s].role != System)
    && (if input[s].Message? && input[s].role == Assistant && |input[s].toolCalls| > 0
        then && (forall i :: s < i < s + n ==> input[i].Message? && input[i].role == Tool)
             && (s + n < |input| && input[s + n].Message? ==> input[s + n].role != Tool)
        else n == 1)
  }

  /** The first segment may go: compaction needs its prompt only, ordinary recovery a spoken message behind it. */
  predicate MayGo(input: Messages, keepPrompt: bool, s: nat, n: nat)
  {
    && FirstSegment(input, s, n)
    && (keepPrompt ==>
          !(s == |input| - 1 && input[s].Message? && input[s].role == User && input[s].content == COMPACTION_PROMPT
            && input[s].toolCalls == []))
    && (!keepPrompt ==> exists j :: s + n <= j < |input| && input[j].Message? && input[j].role != System)
  }

  /** A request's segment ends where its run of results does. */
  lemma RunOfResults(input: Messages, start: nat, end: nat)
    requires start < end <= |input| && (end < |input| ==> !HasRole(input[end], Tool))
    ensures var n := 1 + ToolRun(input[start + 1..end]);
            && start + n <= end && (forall i :: start < i < start + n ==> HasRole(input[i], Tool))
            && (start + n < |input| ==> !HasRole(input[start + n], Tool))
  {
    var run := input[start + 1..end];
    ToolRunMeaning(run);
    hide ToolRun;
    assert forall i :: start < i < end ==> input[i] == run[i - start - 1];
  }

  lemma SegmentIsFirst(input: Messages, start: nat, end: nat)
    requires start < end <= |input| && start == SystemPrefix(input)
    requires end < |input| ==> !HasRole(input[end], Tool)
    ensures FirstSegment(input, start, OldestSegment(input, start, end))
  {
    hide SystemPrefix, ToolRun;
    SystemPrefixMeaning(input);
    if AsksTools(input[start]) {
      RunOfResults(input, start, end);
    }
    SegmentOf(input, start, OldestSegment(input, start, end));
  }

  /** The first segment in terms of roles. */
  lemma SegmentOf(input: Messages, start: nat, n: nat)
    requires n >= 1 && start + n <= |input|
    requires (forall i :: 0 <= i < start ==> HasRole(input[i], System)) && !HasRole(input[start], System)
    requires if AsksTools(input[start])
             then (forall i :: start < i < start + n ==> HasRole(input[i], Tool))
                  && (start + n < |input| ==> !HasRole(input[start + n], Tool))
             else n == 1
    ensures FirstSegment(input, start, n)
  {}

  lemma FirstIsUnique(input: Messages, s: nat, n: nat, t: nat, m: nat)
    requires FirstSegment(input, s, n) && FirstSegment(input, t, m)
    ensures s == t && n == m
  {}

  /** A spoken message stands behind position `k` exactly when the newest one does. */
  lemma SpokenBehind(input: Messages, k: nat)
    ensures NewestSpoken(input) >= k <==> exists j :: k <= j < |input| && input[j].Message? && input[j].role != System
  {
    NewestSpokenMeaning(input);
    hide NewestSpoken;
    if j :| k <= j < |input| && input[j].Message? && input[j].role != System {
      assert Spoken(input[j]);
    }
    if NewestSpoken(input) >= k {
      assert input[NewestSpoken(input)].Message?;
    }
  }

  lemma PromptNotAlone(input: Messages, s: nat)
    requires s < |input| && s == |input| - 1 && s == SystemPrefix(input) < EvictableEnd(input, true)
    ensures !IsPrompt(input[s])
  {
    hide IsPrompt, SystemPrefix;
  }

  lemma EvictedIs(input: Messages, keepPrompt: bool)
    requires SystemPrefix(input) < EvictableEnd(input, keepPrompt)
    ensures var s, end := SystemPrefix(input), EvictableEnd(input, keepPrompt);
            var n := OldestSegment(input, s, end);
            && end <= |input| && (!keepPrompt ==> end == |input|)
            && Evicted(input, keepPrompt)
                 == (if keepPrompt || NewestSpoken(input) >= s + n then Some(input[..s] + input[s + n..]) else None)
  {
    hide SystemPrefix, OldestSegment, NewestSpoken, IsPrompt, EvictableEnd;
    EndIs(input, keepPrompt);
    assert input[..|input|] == input;
  }

  lemma EndIs(input: Messages, keepPrompt: bool)
    ensures EvictableEnd(input, keepPrompt) <= |input|
    ensures !keepPrompt ==> EvictableEnd(input, keepPrompt) == |input|
  {}

  lemma GoesOrStays(input: Messages, keepPrompt: bool)
    requires SystemPrefix(input) < EvictableEnd(input, keepPrompt)
    ensures var s, end := SystemPrefix(input), EvictableEnd(input, keepPrompt);
            && s < end <= |input|
            && var n := OldestSegment(input, s, end);
               && FirstSegment(input, s, n)
               && Evicted(input, keepPrompt)
                    == (if MayGo(input, keepPrompt, s, n) then Some(input[..s] + input[s + n..]) else None)
  {
    var s, end := SystemPrefix(input), EvictableEnd(input, keepPrompt);
    EndIsPrompt(input, keepPrompt);
    PromptIsNoTool(input, end);
    SegmentIsFirst(input, s, end);
    EvictedIs(input, keepPrompt);
    SpokenBehind(input, s + OldestSegment(input, s, end));
    if keepPrompt && s == |input| - 1 {
      PromptNotAlone(input, s);
    }
    hide SystemPrefix, OldestSegment, NewestSpoken, FirstSegment, Evicted, EvictableEnd;
  }

  /** With nothing behind the system messages but a prompt to keep, no segment may go. */
  lemma NothingGoes(input: Messages, keepPrompt: bool, s: nat, n: nat)
    requires SystemPrefix(input) >= EvictableEnd(input, keepPrompt)
    ensures Evicted(input, keepPrompt) == None && !MayGo(input, keepPrompt, s, n)
  {
    SystemPrefixMeaning(input);
    hide SystemPrefix, OldestSegment, NewestSpoken;
  }

  /**
    Exactly when something is evicted, and what: in ordinary recovery the first segment
    goes if and only if a message that is neither nil nor system stands behind all of it; in
    compaction, if and only if it is not the prompt alone. Nothing else is touched.
   */
  lemma EvictsExactly(input: Messages, keepPrompt: bool)
    ensures Evicted(input, keepPrompt).Some? <==> exists s: nat, n: nat :: MayGo(input, keepPrompt, s, n)
    ensures forall s: nat, n: nat :: MayGo(input, keepPrompt, s, n) ==>
              s + n <= |input| && Evicted(input, keepPrompt) == Some(input[..s] + input[s + n..])
  {
    hide Evicted, EvictableEnd, SystemPrefix, FirstSegment;
    if SystemPrefix(input) < EvictableEnd(input, keepPrompt) {
      GoesOrStays(input, keepPrompt);
      var t := SystemPrefix(input);
      var m := OldestSegment(input, t, EvictableEnd(input, keepPrompt));
      forall s: nat, n: nat | MayGo(input, keepPrompt, s, n)
        ensures s == t && n == m
      {
        FirstIsUnique(input, s, n, t, m);
      }
    } else {
      forall s: nat, n: nat
        ensures !MayGo(input, keepPrompt, s, n)
      {
        NothingGoes(input, keepPrompt, s, n);
      }
      NothingGoes(input, keepPrompt, 0, 0);
    }
  }

  // ---------------------------------------------------------------- blocks of calls and results

  /** A tool request at `p`, answered directly and in full, whatever stands around it. */
  predicate SoundBlock(input: Messages, p: nat)
  {
    && p < |input| && AsksTools(input[p])
    && AnsweredBy(|input[p].toolCalls|, CallIDs(input[p]), input[p + 1..])
  }

  /** What follows the block at `p`. */
  function Behind(input: Messages, p: nat): Messages
    requires SoundBlock(input, p)
  {
    input[p + 1 + |input[p].toolCalls|..]
  }

  /** The block and all that follows stand in `retry` as they stood, as far from the end. */
  predicate Stands(input: Messages, retry: Messages, p: nat)
    requires p < |input|
  {
    |input| - p <= |retry| && retry[|retry| - (|input| - p)..] == input[p..]
  }

  /** Nothing of the block is left: all non-system messages of `retry` come from behind it. */
  predicate Gone(input: Messages, retry: Messages, p: nat)
    requires SoundBlock(input, p)
  {
    |Others(retry)| <= |Others(Behind(input, p))|
  }

  /** No block is split: each one stands whole or is gone whole. */
  predicate KeepsBlocks(input: Messages, retry: Messages)
  {
    forall p: nat :: p < |input| && SoundBlock(input, p) ==> Stands(input, retry, p) || Gone(input, retry, p)
  }

  /** A tool run is at least as long as any prefix of results. */
  lemma ToolRunAtLeast(input: Messages, n: nat)
    requires n <= |input| && (forall i :: 0 <= i < n ==> HasRole(input[i], Tool))
    ensures ToolRun(input) >= n
  {
    ToolRunMeaning(input);
  }

  /** A sound block lies behind the cut or at its start, and the cut then takes all of it. */
  lemma BlockAndCut(input: Messages, keepPrompt: bool, p: nat)
    requires Evicted(input, keepPrompt).Some? && SoundBlock(input, p)
    ensures var start, n := SystemPrefix(input), CutLength(input, keepPrompt);
            p >= start + n || (p == start && 1 + |input[p].toolCalls| <= n)
  {
    hide Evicted, CutLength, SystemPrefix, IsPrompt, ToolRun, EvictableEnd, CallIDs, AnsweredBy;
    var start, end, k := SystemPrefix(input), EvictableEnd(input, keepPrompt), |input[p].toolCalls|;
    EvictedCut(input, keepPrompt);
    CutLengthIs(input, keepPrompt);
    PrefixIsSystem(input);
    if start < p < start + CutLength(input, keepPrompt) {
      CutIsTools(input, keepPrompt, p);
    }
    if p == start {
      EndIsPrompt(input, keepPrompt);
      PromptIsNoTool(input, end);
      AnswersAreTools(input, p);
      assert end < |input| ==> !HasRole(input[end], Tool);
      ToolRunAtLeast(input[p + 1..end], k);
    }
  }

  lemma AnswersAreTools(input: Messages, p: nat)
    requires SoundBlock(input, p)
    ensures p + |input[p].toolCalls| < |input|
    ensures forall j :: p < j <= p + |input[p].toolCalls| ==> HasRole(input[j], Tool)
  {
    hide CallIDs;
    forall j | p < j <= p + |input[p].toolCalls|
      ensures HasRole(input[j], Tool)
    {
      assert input[p + 1..][j - p - 1] == input[j];
    }
  }

  lemma PromptIsNoTool(input: Messages, end: nat)
    requires end == |input| || (end < |input| && IsPrompt(input[end]))
    ensures end < |input| ==> !HasRole(input[end], Tool)
  {}

  /** Behind its first message the cut holds results only. */
  lemma CutIsTools(input: Messages, keepPrompt: bool, p: nat)
    requires Evicted(input, keepPrompt).Some?
    requires SystemPrefix(input) < p < SystemPrefix(input) + CutLength(input, keepPrompt)
    ensures p < |input| && HasRole(input[p], Tool)
  {
    hide SystemPrefix, NewestSpoken, IsPrompt, ToolRun, CutLength, Evicted, EvictableEnd, AsksTools;
    var start, end := SystemPrefix(input), EvictableEnd(input, keepPrompt);
    CutLengthIs(input, keepPrompt);
    ToolRunMeaning(input[start + 1..end]);
    assert input[start + 1..end][p - start - 1] == input[p];
  }

  /**
    An eviction splits no block of calls and results: for any input, sound or not around
    it, a request answered directly keeps its answers or goes with all of them.
   */
  lemma EvictionKeepsBlocks(input: Messages, keepPrompt: bool)
    requires Evicted(input, keepPrompt).Some?
    ensures KeepsBlocks(input, Evicted(input, keepPrompt).value)
  {
    hide Evicted, CutLength, SystemPrefix, SoundBlock, Others, Filter, Stands, Gone;
    var a, b, c := CutShape(input, keepPrompt);
    forall p: nat | p < |input| && SoundBlock(input, p)
      ensures Stands(input, a + c, p) || Gone(input, a + c, p)
    {
      BlockAndCut(input, keepPrompt, p);
      OneBlock(input, a, b, c, p);
    }
  }

  lemma OneBlock(input: Messages, a: Messages, b: Messages, c: Messages, p: nat)
    requires SoundBlock(input, p) && input == a + (b + c) && forall i :: 0 <= i < |a| ==> IsSystem(a[i])
    requires p >= |a| + |b| || (p == |a| && 1 + |input[p].toolCalls| <= |b|)
    ensures Stands(input, a + c, p) || Gone(input, a + c, p)
  {
    hide AnsweredBy, IsSystem, NotSystem, Filter, CallIDs;
    if p >= |a| + |b| {
      SuffixStands(a, b, c, p);
    } else {
      var k := 1 + |input[p].toolCalls|;
      assert Behind(input, p) == b[k..] + c;
      FilterConcat(b[k..], c, NotSystem);
      SystemsAreNoOthers(a);
      FilterConcat(a, c, NotSystem);
    }
  }

  lemma SystemsAreNoOthers(a: Messages)
    requires forall i :: 0 <= i < |a| ==> IsSystem(a[i])
    ensures Others(a) == []
  {
    FilterNone(a, NotSystem);
  }

  lemma SuffixStands(a: Messages, b: Messages, c: Messages, p: nat)
    requires |a| + |b| <= p < |a| + |b| + |c|
    ensures Stands(a + (b + c), a + c, p)
  {
    var input, retry := a + (b + c), a + c;
    assert retry[p - |b|..] == input[p..];
  }

  lemma BlocksTwice(x: Messages, y: Messages, z: Messages)
    requires KeepsBlocks(x, y) && KeepsBlocks(y, z) && |Others(z)| <= |Others(y)|
    ensures KeepsBlocks(x, z)
  {
    hide Others;
    forall p: nat | p < |x| && SoundBlock(x, p)
      ensures Stands(x, z, p) || Gone(x, z, p)
    {
      if Stands(x, y, p) {
        var q := |y| - (|x| - p);
        BlockMoves(x, y, p, q);
        assert Stands(y, z, q) || Gone(y, z, q);
      }
    }
  }

  /** A block that stands is the same block at its new place. */
  lemma BlockMoves(x: Messages, y: Messages, p: nat, q: nat)
    requires SoundBlock(x, p) && q <= |y| && y[q..] == x[p..]
    ensures SoundBlock(y, q) && Behind(y, q) == Behind(x, p) && |y| - q == |x| - p
  {
    hide AnsweredBy, CallIDs;
    assert y[q..][0] == y[q] && x[p..][0] == x[p];
    assert y[q + 1..] == y[q..][1..] && x[p + 1..] == x[p..][1..];
    var k := 1 + |x[p].toolCalls|;
    assert k <= |x[p..]| by { AnsweredFits(x, p); }
    assert y[q + k..] == y[q..][k..] && x[p + k..] == x[p..][k..];
  }

  lemma AnsweredFits(x: Messages, p: nat)
    requires SoundBlock(x, p)
    ensures p + 1 + |x[p].toolCalls| <= |x|
  {}

  // ---------------------------------------------------------------- the retry loop

  datatype Outcome = Answer(text: string) | Overflow | OtherError(error: string)

  datatype Verdict = Returned(outcome: Outcome) | WindowExceeded | Cancelled

  /** What the provider answers to its n-th call, and whether the context is done before it. */
  type Provider = (nat, Messages) -> Outcome
  type Cancellation = nat -> bool

  datatype Run = Run(verdict: Verdict, calls: seq<Messages>)

  /** The recovery loop from its `attempt`-th round on. */
  function Recovered(
    provider: Provider, cancelled: Cancellation, keepPrompt: bool, current: Messages, attempt: nat): Run
    requires attempt <= MAX_RECOVERY_ATTEMPTS
    decreases MAX_RECOVERY_ATTEMPTS - attempt
  {
    if cancelled(attempt) then Run(Cancelled, [])
    else
      var outcome := provider(attempt, current);
      if !outcome.Overflow? then Run(Returned(outcome), [current])
      else if attempt >= MAX_RECOVERY_ATTEMPTS then Run(WindowExceeded, [current])
      else
        match Evicted(current, keepPrompt)
        case None => Run(WindowExceeded, [current])
        case Some(trimmed) =>
          var rest := Recovered(provider, cancelled, keepPrompt, trimmed, attempt + 1);
          Run(rest.verdict, [current] + rest.calls)
  }

  /** Generate with context recovery; `calls` records the inputs sent to the provider. */
  method Generate(provider: Provider, cancelled: Cancellation, keepPrompt: bool, input: Messages)
    returns (verdict: Verdict, calls: seq<Messages>)
    ensures Run(verdict, calls) == Recovered(provider, cancelled, keepPrompt, input, 0)
  {
    hide Evicted, Recovered;
    var current := input;
    calls := [];
    var attempt := 0;
    while true
      invariant attempt <= MAX_RECOVERY_ATTEMPTS
      invariant var rest := Recovered(provider, cancelled, keepPrompt, current, attempt);
                Recovered(provider, cancelled, keepPrompt, input, 0) == Run(rest.verdict, calls + rest.calls)
      decreases MAX_RECOVERY_ATTEMPTS - attempt
    {
      RecoveredStep(provider, cancelled, keepPrompt, current, attempt);
      if cancelled(attempt) {
        assert calls + [] == calls;
        return Cancelled, calls;
      }
      ghost var before := calls;
      var outcome := provider(attempt, current);
      calls := calls + [current];
      if !outcome.Overflow? {
        return Returned(outcome), calls;
      }
      if attempt >= MAX_RECOVERY_ATTEMPTS {
        return WindowExceeded, calls;
      }
      var trimmed, ok := EvictOldestModelHistory(current, keepPrompt);
      if !ok {
        return WindowExceeded, calls;
      }
      current := trimmed;
      attempt := attempt + 1;
      Assoc(before, [calls[|before|]], Recovered(provider, cancelled, keepPrompt, current, attempt).calls);
    }
  }

  /** A retry's input compared with the first one. */
  predicate Reduced(original: Messages, retry: Messages, keepPrompt: bool)
  {
    && Systems(retry) == Systems(original)
    && |Others(retry)| < |Others(original)|
    && Others(retry) == Others(original)[|Others(original)| - |Others(retry)|..]
    && (!keepPrompt ==> Newest(original).Some? && Newest(retry) == Newest(original))
    && (keepPrompt && original != [] && IsPrompt(original[|original| - 1])
        ==> retry != [] && IsPrompt(retry[|retry| - 1]))
    && KeepsBlocks(original, retry) && (Paired(original) ==> Paired(retry))
  }

  lemma EvictionReduces(input: Messages, keepPrompt: bool)
    requires Evicted(input, keepPrompt).Some?
    ensures Reduced(input, Evicted(input, keepPrompt).value, keepPrompt)
  {
    hide Systems, Others, Newest, Paired, IsPrompt, KeepsBlocks;
    EvictionKeeps(input, keepPrompt);
    EvictionKeepsNewest(input, keepPrompt);
    EvictionKeepsBlocks(input, keepPrompt);
    if Paired(input) {
      EvictionKeepsPairing(input, keepPrompt);
    }
  }

  lemma ReducedTransitive(a: Messages, b: Messages, c: Messages, keepPrompt: bool)
    requires Reduced(a, b, keepPrompt) && Reduced(b, c, keepPrompt)
    ensures Reduced(a, c, keepPrompt)
  {
    hide Systems, Others, Newest, Paired, IsPrompt, KeepsBlocks;
    BlocksTwice(a, b, c);
  }

  /** The retry is the input without its first segment, and that could go. */
  ghost predicate LosesSegment(input: Messages, retry: Messages, keepPrompt: bool)
  {
    exists s: nat, n: nat :: MayGo(input, keepPrompt, s, n) && retry == input[..s] + input[s + n..]
  }

  lemma EvictedLoses(input: Messages, keepPrompt: bool)
    ensures Evicted(input, keepPrompt).Some? ==> LosesSegment(input, Evicted(input, keepPrompt).value, keepPrompt)
  {
    EvictsExactly(input, keepPrompt);
    hide Evicted, MayGo;
    if Evicted(input, keepPrompt).Some? {
      var s: nat, n: nat :| MayGo(input, keepPrompt, s, n);
    }
  }

  /** Nothing may go. */
  ghost predicate Stuck(input: Messages, keepPrompt: bool)
  {
    forall s: nat, n: nat :: !MayGo(input, keepPrompt, s, n)
  }

  lemma StuckIs(input: Messages, keepPrompt: bool)
    ensures Stuck(input, keepPrompt) <==> Evicted(input, keepPrompt).None?
  {
    EvictsExactly(input, keepPrompt);
    hide Evicted, MayGo;
  }

  /**
    On any run the provider is called at most four times; each call loses exactly the first
    segment of the call before. So it keeps all system messages and a strictly shorter
    suffix of the rest, with the newest message (or the compaction prompt) kept, no block of
    calls and results split, and an input paired throughout kept so.
   */
  lemma {:induction false} RecoveryRuns(
    provider: Provider, cancelled: Cancellation, keepPrompt: bool, input: Messages, attempt: nat)
    requires attempt <= MAX_RECOVERY_ATTEMPTS
    ensures var run := Recovered(provider, cancelled, keepPrompt, input, attempt);
            && attempt + |run.calls| <= 4 && (run.calls != [] ==> run.calls[0] == input)
            && (forall i :: 0 <= i < |run.calls| - 1 ==> LosesSegment(run.calls[i], run.calls[i + 1], keepPrompt))
            && (forall i, j :: 0 <= i < j < |run.calls| ==> Reduced(run.calls[i], run.calls[j], keepPrompt))
    decreases MAX_RECOVERY_ATTEMPTS - attempt
  {
    hide Reduced, Evicted, LosesSegment;
    var run := Recovered(provider, cancelled, keepPrompt, input, attempt);
    EvictedLoses(input, keepPrompt);
    if |run.calls| > 1 {
      var trimmed := Evicted(input, keepPrompt).value;
      var rest := Recovered(provider, cancelled, keepPrompt, trimmed, attempt + 1);
      RecoveryRuns(provider, cancelled, keepPrompt, trimmed, attempt + 1);
      EvictionReduces(input, keepPrompt);
      assert forall i :: 0 < i < |run.calls| ==> run.calls[i] == rest.calls[i - 1];
      forall i, j | 0 <= i < j < |run.calls|
        ensures Reduced(run.calls[i], run.calls[j], keepPrompt)
      {
        assert run.calls[j] == rest.calls[j - 1];
        if i > 0 {
          assert run.calls[i] == rest.calls[i - 1];
        } else if j > 1 {
          ReducedTransitive(input, rest.calls[0], rest.calls[j - 1], keepPrompt);
        }
      }
    }
  }

  lemma RecoveredStep(provider: Provider, cancelled: Cancellation, keepPrompt: bool, input: Messages, attempt: nat)
    requires attempt <= MAX_RECOVERY_ATTEMPTS
    ensures var run := Recovered(provider, cancelled, keepPrompt, input, attempt);
            if cancelled(attempt) then run == Run(Cancelled, [])
            else if !provider(attempt, input).Overflow? then run == Run(Returned(provider(attempt, input)), [input])
            else if attempt == MAX_RECOVERY_ATTEMPTS || Evicted(input, keepPrompt).None?
            then run == Run(WindowExceeded, [input])
            else
              var rest := Recovered(provider, cancelled, keepPrompt, Evicted(input, keepPrompt).value, attempt + 1);
              run == Run(rest.verdict, [input] + rest.calls)
  {
    hide Evicted;
  }

  /** Call `i` was made before any cancellation, and overflowed unless it was the last. */
  predicate GoesOn(provider: Provider, cancelled: Cancellation, calls: seq<Messages>, attempt: nat, i: nat)
    requires i < |calls|
  {
    !cancelled(attempt + i) && (i < |calls| - 1 ==> provider(attempt + i, calls[i]).Overflow?)
  }

  predicate Overflowed(provider: Provider, cancelled: Cancellation, calls: seq<Messages>, attempt: nat)
  {
    forall i: nat :: i < |calls| ==> GoesOn(provider, cancelled, calls, attempt, i)
  }

  /**
    What the verdict means: cancelled before a call; the answer of the last call, which is no
    overflow; or an overflow of the last call, the fourth or one whose input is stuck.
   */
  ghost predicate Justified(
    provider: Provider, cancelled: Cancellation, keepPrompt: bool, run: Run, attempt: nat)
  {
    var n := |run.calls|;
    match run.verdict
    case Cancelled =>
      cancelled(attempt + n)
      && (n > 0 ==> provider(attempt + n - 1, run.calls[n - 1]).Overflow? && !Stuck(run.calls[n - 1], keepPrompt))
    case Returned(outcome) =>
      n > 0 && outcome == provider(attempt + n - 1, run.calls[n - 1]) && !outcome.Overflow?
    case WindowExceeded =>
      n > 0 && provider(attempt + n - 1, run.calls[n - 1]).Overflow?
      && (attempt + n == 4 || Stuck(run.calls[n - 1], keepPrompt))
  }

  /** The loop goes on exactly as long as it overflows, may and can; every verdict is justified. */
  lemma {:induction false} GivesUpOnlyWhenStuck(
    provider: Provider, cancelled: Cancellation, keepPrompt: bool, input: Messages, attempt: nat)
    requires attempt <= MAX_RECOVERY_ATTEMPTS
    ensures var run := Recovered(provider, cancelled, keepPrompt, input, attempt);
            && Overflowed(provider, cancelled, run.calls, attempt)
            && Justified(provider, cancelled, keepPrompt, run, attempt)
    decreases MAX_RECOVERY_ATTEMPTS - attempt
  {
    hide Evicted, Stuck;
    RecoveredStep(provider, cancelled, keepPrompt, input, attempt);
    StuckIs(input, keepPrompt);
    hide Recovered;
    var run := Recovered(provider, cancelled, keepPrompt, input, attempt);
    if !cancelled(attempt) && provider(attempt, input).Overflow? && attempt < MAX_RECOVERY_ATTEMPTS
       && Evicted(input, keepPrompt).Some? {
      var trimmed := Evicted(input, keepPrompt).value;
      GivesUpOnlyWhenStuck(provider, cancelled, keepPrompt, trimmed, attempt + 1);
      var rest := Recovered(provider, cancelled, keepPrompt, trimmed, attempt + 1);
      JustifiedLater(provider, cancelled, keepPrompt, input, run, rest, attempt);
    }
  }

  lemma JustifiedLater(
    provider: Provider, cancelled: Cancellation, keepPrompt: bool, input: Messages, run: Run, rest: Run, attempt: nat)
    requires !cancelled(attempt) && provider(attempt, input).Overflow? && !Stuck(input, keepPrompt)
    requires run == Run(rest.verdict, [input] + rest.calls)
    requires Overflowed(provider, cancelled, rest.calls, attempt + 1)
    requires Justified(provider, cancelled, keepPrompt, rest, attempt + 1)
    ensures Overflowed(provider, cancelled, run.calls, attempt)
    ensures Justified(provider, cancelled, keepPrompt, run, attempt)
  {
    hide Stuck;
    assert attempt + |run.calls| == attempt + 1 + |rest.calls|;
    assert |run.calls| == 1 + |rest.calls| && run.calls[0] == input;
    forall i: nat | i < |run.calls|
      ensures GoesOn(provider, cancelled, run.calls, attempt, i)
    {
      if i > 0 {
        assert GoesOn(provider, cancelled, rest.calls, attempt + 1, i - 1);
        assert run.calls[i] == rest.calls[i - 1] && attempt + i == attempt + 1 + (i - 1);
      }
    }
    if |rest.calls| > 0 {
      assert run.calls[|run.calls| - 1] == rest.calls[|rest.calls| - 1];
    }
  }
}
