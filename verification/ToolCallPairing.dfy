/**
  The repair pass that turns the durable item stream into a tool-call structure every
  provider accepts: consecutive calls become one assistant message again, each call is
  answered directly after it, and results without a call are dropped.
 */
module ToolCallPairing {
  import opened Wrappers
  import opened Seqs
  import opened Text
  import opened Chat

  /** Stands for the fixed result text of a call that never settled. */
  const UNSETTLED := "tool result unavailable"

  type Messages = seq<ChatMessage>

  predicate IsGroup(m: ChatMessage) { IsAssistant(m) && m.toolCalls != [] }

  /** First tool message recorded for `id`. */
  function FirstResult(messages: Messages, id: string): (r: Option<ChatMessage>)
    ensures r.Some? ==> IsTool(r.value) && Trim(r.value.toolCallID) == id
  {
    if messages == [] then None
    else if IsTool(messages[0]) && Trim(messages[0].toolCallID) == id then Some(messages[0])
    else FirstResult(messages[1..], id)
  }

  function Placeholder(call: ToolCall): ChatMessage
  {
    ChatMessage("tool", UNSETTLED, call.name, Trim(call.id), [], [], map[], "")
  }

  /** The first recorded result of a call, or the placeholder for one that never settled. */
  function Answer(messages: Messages, call: ToolCall): ChatMessage
  {
    match FirstResult(messages, Trim(call.id))
    case Some(result) => result
    case None => Placeholder(call)
  }

  function Answers(messages: Messages, calls: seq<ToolCall>): (r: Messages)
    ensures |r| == |calls|
    ensures forall i :: 0 <= i < |calls| ==> r[i] == Answer(messages, calls[i])
  {
    if calls == [] then [] else [Answer(messages, calls[0])] + Answers(messages, calls[1..])
  }

  /** The calls with a non-blank ID outside `answered`, each ID once, first call kept. */
  function Fresh(calls: seq<ToolCall>, answered: set<string>): seq<ToolCall>
    decreases |calls|
  {
    if calls == [] then []
    else
      var id := Trim(calls[0].id);
      if id == "" || id in answered then Fresh(calls[1..], answered)
      else [calls[0]] + Fresh(calls[1..], answered + {id})
  }

  /** The non-blank IDs of a list of calls. */
  function Ids(calls: seq<ToolCall>): set<string>
  {
    if calls == [] then {}
    else (if Trim(calls[0].id) == "" then {} else {Trim(calls[0].id)}) + Ids(calls[1..])
  }

  function JoinContent(existing: string, addition: string): string
  {
    if Trim(existing) == "" then addition
    else if Trim(addition) == "" then existing
    else existing + "\n\n" + addition
  }

  /** Number of leading assistant messages with calls. */
  function GroupLength(messages: Messages): (n: nat)
    ensures n <= |messages|
    ensures messages != [] && IsGroup(messages[0]) ==> n >= 1
  {
    if messages != [] && IsGroup(messages[0]) then 1 + GroupLength(messages[1..]) else 0
  }

  function MergeOne(group: ChatMessage, next: ChatMessage): ChatMessage
  {
    group.(toolCalls := group.toolCalls + next.toolCalls, content := JoinContent(group.content, next.content))
  }

  /** `group` with the messages of `more` merged into it. */
  function Merge(group: ChatMessage, more: Messages): ChatMessage
    decreases |more|
  {
    if more == [] then group else Merge(MergeOne(group, more[0]), more[1..])
  }

  /** The single assistant message at the head of `messages` that its leading group stands for. */
  function MergedHead(messages: Messages): ChatMessage
    requires messages != []
  {
    Merge(messages[0], messages[1..if GroupLength(messages) > 0 then GroupLength(messages) else 1])
  }

  function Emit(all: Messages, group: ChatMessage, calls: seq<ToolCall>): Messages
  {
    if calls != [] then [group.(toolCalls := calls)] + Answers(all, calls)
    else if Trim(group.content) != "" then [group.(toolCalls := [])]
    else []
  }

  /** The repaired form of `rest`, a suffix of `all`, when the IDs in `answered` are taken. */
  function Repair(all: Messages, rest: Messages, answered: set<string>): Messages
    decreases |rest|
  {
    if rest == [] then []
    else if IsTool(rest[0]) then Repair(all, rest[1..], answered)
    else if !IsGroup(rest[0]) then [rest[0]] + Repair(all, rest[1..], answered)
    else
      var group := MergedHead(rest);
      Emit(all, group, Fresh(group.toolCalls, answered))
      + Repair(all, rest[GroupLength(rest)..], answered + Ids(group.toolCalls))
  }

  function Normalized(messages: Messages): Messages
  {
    Repair(messages, messages, {})
  }

  // ---------------------------------------------------------------- the loops

  method CollectResults(messages: Messages) returns (results: map<string, ChatMessage>)
    ensures forall id :: id in results <==> id != "" && FirstResult(messages, id).Some?
    ensures forall id :: id in results ==> FirstResult(messages, id) == Some(results[id])
  {
    results := map[];
    for index := 0 to |messages|
      invariant forall id :: id in results ==> id != "" && FirstResult(messages, id) == Some(results[id])
      invariant forall id :: id != "" && id !in results ==> FirstResult(messages, id) == FirstResult(messages[index..], id)
    {
      var message := messages[index];
      if IsTool(message) {
        var id := Trim(message.toolCallID);
        if id != "" && id !in results {
          results := results[id := message];
        }
      }
    }
  }

  /** Merges the run of assistant messages with calls that starts at `start`. */
  method MergeGroup(messages: Messages, start: nat) returns (group: ChatMessage, next: nat)
    requires start < |messages| && IsGroup(messages[start])
    ensures group == MergedHead(messages[start..])
    ensures next == start + GroupLength(messages[start..])
  {
    hide IsGroup, MergeOne, GroupLength, Merge, MergedHead;
    group := messages[start];
    next := start + 1;
    MergedHeadIs(messages, start);
    while next < |messages| && IsGroup(messages[next])
      invariant start < next <= |messages|
      invariant GroupLength(messages[start..]) == next - start + GroupLength(messages[next..])
      invariant MergedHead(messages[start..]) == Merge(group, Leading(messages[next..]))
    {
      MergeStep(messages, next, group);
      group := MergeOne(group, messages[next]);
      next := next + 1;
    }
    MergeEnd(messages, next, group);
  }

  /** The leading assistant messages with calls. */
  function Leading(messages: Messages): Messages
  {
    messages[..GroupLength(messages)]
  }

  lemma MergedHeadIs(messages: Messages, start: nat)
    requires start < |messages| && IsGroup(messages[start])
    ensures MergedHead(messages[start..]) == Merge(messages[start], Leading(messages[start + 1..]))
    ensures GroupLength(messages[start..]) == 1 + GroupLength(messages[start + 1..])
  {
    hide Merge;
    var rest := messages[start..];
    assert rest[1..] == messages[start + 1..];
    assert rest[1..GroupLength(rest)] == Leading(messages[start + 1..]);
  }

  lemma MergeStep(messages: Messages, next: nat, group: ChatMessage)
    requires next < |messages| && IsGroup(messages[next])
    ensures GroupLength(messages[next..]) == 1 + GroupLength(messages[next + 1..])
    ensures Merge(group, Leading(messages[next..]))
         == Merge(MergeOne(group, messages[next]), Leading(messages[next + 1..]))
  {
    hide MergeOne;
    assert messages[next..][1..] == messages[next + 1..];
    assert Leading(messages[next..])[1..] == Leading(messages[next + 1..]);
  }

  lemma MergeEnd(messages: Messages, next: nat, group: ChatMessage)
    requires next <= |messages| && (next < |messages| ==> !IsGroup(messages[next]))
    ensures GroupLength(messages[next..]) == 0 && Merge(group, Leading(messages[next..])) == group
  {}

  lemma FreshStep(calls: seq<ToolCall>, i: nat, answered: set<string>)
    requires i < |calls|
    ensures var id := Trim(calls[i].id);
            && Fresh(calls[i..], answered)
               == (if id == "" || id in answered then Fresh(calls[i + 1..], answered)
                   else [calls[i]] + Fresh(calls[i + 1..], answered + {id}))
            && Ids(calls[i..]) == (if id == "" then {} else {id}) + Ids(calls[i + 1..])
  {
    assert calls[i..][1..] == calls[i + 1..];
  }

  method AnswerCalls(
    ghost messages: Messages, results: map<string, ChatMessage>, groupCalls: seq<ToolCall>, taken: set<string>)
    returns (calls: seq<ToolCall>, answers: Messages, answered: set<string>)
    requires forall id :: id in results <==> id != "" && FirstResult(messages, id).Some?
    requires forall id :: id in results ==> FirstResult(messages, id) == Some(results[id])
    ensures calls == Fresh(groupCalls, taken) && answers == Answers(messages, calls)
    ensures answered == taken + Ids(groupCalls)
  {
    hide Fresh, Ids, Trim, FirstResult, Answers;
    calls, answers, answered := [], [], taken;
    assert groupCalls[0..] == groupCalls;
    for i := 0 to |groupCalls|
      invariant calls + Fresh(groupCalls[i..], answered) == Fresh(groupCalls, taken)
      invariant answers == Answers(messages, calls)
      invariant answered + Ids(groupCalls[i..]) == taken + Ids(groupCalls)
    {
      var call := groupCalls[i];
      FreshStep(groupCalls, i, answered);
      var id := Trim(call.id);
      if id == "" || id in answered {
        continue;
      }
      AnswersAppend(messages, calls, call);
      answered := answered + {id};
      calls := calls + [call];
      var result := if id in results then results[id] else Placeholder(call);
      answers := answers + [result];
    }
    FreshEnd(groupCalls, answered);
  }

  lemma FreshEnd(calls: seq<ToolCall>, answered: set<string>)
    ensures Fresh(calls[|calls|..], answered) == [] && Ids(calls[|calls|..]) == {}
  {}

  lemma {:induction false} AnswersAppend(messages: Messages, calls: seq<ToolCall>, call: ToolCall)
    ensures Answers(messages, calls + [call]) == Answers(messages, calls) + [Answer(messages, call)]
  {
    hide Answer;
  }

  /** The three ways in which one step of the repair consumes its input. */
  lemma RepairStep(messages: Messages, i: nat, answered: set<string>)
    requires i < |messages|
    ensures IsTool(messages[i]) ==>
              Repair(messages, messages[i..], answered) == Repair(messages, messages[i + 1..], answered)
    ensures !IsTool(messages[i]) && !IsGroup(messages[i]) ==>
              Repair(messages, messages[i..], answered)
              == [messages[i]] + Repair(messages, messages[i + 1..], answered)
    ensures IsGroup(messages[i]) ==>
              var group := MergedHead(messages[i..]);
              Repair(messages, messages[i..], answered)
              == Emit(messages, group, Fresh(group.toolCalls, answered))
                 + Repair(messages, messages[i + GroupLength(messages[i..])..], answered + Ids(group.toolCalls))
  {
    hide Emit, Fresh, Ids, MergedHead, GroupLength;
    var rest := messages[i..];
    assert rest[1..] == messages[i + 1..];
    assert rest[GroupLength(rest)..] == messages[i + GroupLength(rest)..];
  }

  /** One merged group with its answers, or what is left of it when no call survives. */
  method EmitGroup(
    ghost messages: Messages, results: map<string, ChatMessage>, group: ChatMessage, taken: set<string>)
    returns (emitted: Messages, answered: set<string>)
    requires forall id :: id in results <==> id != "" && FirstResult(messages, id).Some?
    requires forall id :: id in results ==> FirstResult(messages, id) == Some(results[id])
    ensures emitted == Emit(messages, group, Fresh(group.toolCalls, taken))
    ensures answered == taken + Ids(group.toolCalls)
  {
    hide Fresh, Ids, Trim, FirstResult, Answers;
    var calls, answers;
    calls, answers, answered := AnswerCalls(messages, results, group.toolCalls, taken);
    if |calls| == 0 {
      // Nothing answerable survives; keep any prose the turn carried.
      if Trim(group.content) != "" {
        emitted := [group.(toolCalls := [])];
      } else {
        emitted := [];
      }
    } else {
      emitted := [group.(toolCalls := calls)] + answers;
    }
  }

  method Normalize(messages: Messages) returns (normalized: Messages)
    ensures normalized == Normalized(messages)
  {
    var results := CollectResults(messages);
    hide Repair, Fresh, Ids, MergedHead, GroupLength, IsTool, IsGroup, Trim, FirstResult, Emit;
    normalized := [];
    var answered: set<string> := {};
    var index := 0;
    assert messages[0..] == messages;
    while index < |messages|
      invariant index <= |messages|
      invariant normalized + Repair(messages, messages[index..], answered) == Normalized(messages)
    {
      var message := messages[index];
      RepairStep(messages, index, answered);
      if IsTool(message) {
        // Results are emitted with the call group they answer.
        index := index + 1;
      } else if !IsGroup(message) {
        normalized := normalized + [message];
        index := index + 1;
      } else {
        var group, next := MergeGroup(messages, index);
        var emitted;
        emitted, answered := EmitGroup(messages, results, group, answered);
        normalized := normalized + emitted;
        index := next;
      }
    }
    RepairEnd(messages, answered);
  }

  lemma RepairEnd(messages: Messages, answered: set<string>)
    ensures Repair(messages, messages[|messages|..], answered) == []
  {}

  // ---------------------------------------------------------------- what the result looks like

  /** The answers at the head of `tail` are, call by call, the answers to `calls`. */
  predicate AnswersCalls(tail: Messages, calls: seq<ToolCall>)
  {
    && |calls| <= |tail|
    && forall k :: 0 <= k < |calls| ==>
         Trim(calls[k].id) != "" && IsTool(tail[k]) && Trim(tail[k].toolCallID) == Trim(calls[k].id)
  }

  /**
    What a provider accepts: every assistant message with calls is followed at once by
    exactly one tool message for each call in call order, and there is no other tool message.
   */
  predicate Replayable(messages: Messages)
    decreases |messages|
  {
    if messages == [] then true
    else if IsGroup(messages[0]) then
      && AnswersCalls(messages[1..], messages[0].toolCalls)
      && Replayable(messages[1 + |messages[0].toolCalls|..])
    else !IsTool(messages[0]) && Replayable(messages[1..])
  }

  /** All calls of the assistant messages, in order. */
  function CallsOf(messages: Messages): seq<ToolCall>
  {
    if messages == [] then []
    else (if IsGroup(messages[0]) then messages[0].toolCalls else []) + CallsOf(messages[1..])
  }

  function ToolsOf(messages: Messages): Messages
  {
    if messages == [] then []
    else (if IsTool(messages[0]) then [messages[0]] else []) + ToolsOf(messages[1..])
  }

  /**
    What a reader sees besides calls and results: every other message in order, and the
    joined prose of each run of assistant messages with calls, when there is any.
   */
  function Visible(messages: Messages): Messages
    decreases |messages|
  {
    if messages == [] then []
    else if IsTool(messages[0]) then Visible(messages[1..])
    else if !IsGroup(messages[0]) then [messages[0]] + Visible(messages[1..])
    else
      var group := MergedHead(messages);
      (if Trim(group.content) != "" then [group.(toolCalls := [])] else [])
      + Visible(messages[GroupLength(messages)..])
  }

  /** Distinct non-blank trimmed IDs. */
  predicate DistinctCalls(calls: seq<ToolCall>)
  {
    && (forall i :: 0 <= i < |calls| ==> Trim(calls[i].id) != "")
    && forall i, j :: 0 <= i < j < |calls| ==> Trim(calls[i].id) != Trim(calls[j].id)
  }

  lemma {:induction false} FreshMeaning(calls: seq<ToolCall>, answered: set<string>)
    ensures DistinctCalls(Fresh(calls, answered))
    ensures forall i :: 0 <= i < |Fresh(calls, answered)| ==> Trim(Fresh(calls, answered)[i].id) !in answered
    decreases |calls|
  {
    hide Trim;
    if calls != [] {
      var id := Trim(calls[0].id);
      FreshMeaning(calls[1..], if id == "" || id in answered then answered else answered + {id});
    }
  }

  lemma {:induction false} FreshIds(calls: seq<ToolCall>, answered: set<string>)
    ensures Ids(Fresh(calls, answered)) == Ids(calls) - answered
    decreases |calls|
  {
    hide Trim;
    if calls != [] {
      var id := Trim(calls[0].id);
      FreshIds(calls[1..], if id == "" || id in answered then answered else answered + {id});
    }
  }

  lemma {:induction false} FreshFixed(calls: seq<ToolCall>, answered: set<string>)
    requires DistinctCalls(calls)
    requires forall i :: 0 <= i < |calls| ==> Trim(calls[i].id) !in answered
    ensures Fresh(calls, answered) == calls
    decreases |calls|
  {
    hide Trim;
    if calls != [] {
      assert forall i :: 0 <= i < |calls[1..]| ==> calls[1..][i] == calls[i + 1];
      FreshFixed(calls[1..], answered + {Trim(calls[0].id)});
    }
  }

  lemma {:induction false} FreshConcat(a: seq<ToolCall>, b: seq<ToolCall>, answered: set<string>)
    ensures Fresh(a + b, answered) == Fresh(a, answered) + Fresh(b, answered + Ids(a))
    decreases |a|
  {
    hide Trim;
    if a == [] {
      assert a + b == b && answered + Ids(a) == answered;
    } else {
      var id := Trim(a[0].id);
      assert (a + b)[1..] == a[1..] + b;
      var next := if id == "" || id in answered then answered else answered + {id};
      FreshConcat(a[1..], b, next);
      assert next + Ids(a[1..]) == answered + Ids(a);
    }
  }

  lemma {:induction false} IdsMember(calls: seq<ToolCall>)
    ensures forall id :: id in Ids(calls) <==> id != "" && exists i :: 0 <= i < |calls| && Trim(calls[i].id) == id
    decreases |calls|
  {
    hide Trim;
    if calls != [] {
      IdsMember(calls[1..]);
      assert forall i :: 0 <= i < |calls[1..]| ==> calls[1..][i] == calls[i + 1];
      forall id | id in Ids(calls)
        ensures exists i :: 0 <= i < |calls| && Trim(calls[i].id) == id
      {
        if id in Ids(calls[1..]) {
          var i :| 0 <= i < |calls[1..]| && Trim(calls[1..][i].id) == id;
          assert Trim(calls[i + 1].id) == id;
        }
      }
      forall i | 0 <= i < |calls| && Trim(calls[i].id) != ""
        ensures Trim(calls[i].id) in Ids(calls)
      {
        if i > 0 {
          assert calls[1..][i - 1] == calls[i];
        }
      }
    }
  }

  lemma GroupNotTool(m: ChatMessage)
    requires IsAssistant(m)
    ensures !IsTool(m)
  {}

  lemma AnswerIsTool(all: Messages, call: ToolCall)
    ensures IsTool(Answer(all, call)) && Trim(Answer(all, call).toolCallID) == Trim(call.id)
  {
    hide Trim, FirstResult, IsTool;
    PlaceholderIsTool(call);
  }

  lemma PlaceholderIsTool(call: ToolCall)
    ensures IsTool(Placeholder(call)) && Trim(Placeholder(call).toolCallID) == Trim(call.id)
  {
    hide Trim;
    TrimTight(call.id);
    ToolIsTight();
  }

  lemma ToolIsTight()
    ensures Trim("tool") == "tool"
  {
    hide Trim;
    TrimTight("tool");
  }

  lemma {:induction false} MergeKeeps(group: ChatMessage, more: Messages)
    ensures Merge(group, more).role == group.role
    ensures IsGroup(group) ==> IsGroup(Merge(group, more))
    decreases |more|
  {
    hide JoinContent, Trim, EqualFold;
    if more != [] {
      MergeKeeps(MergeOne(group, more[0]), more[1..]);
    }
  }

  lemma {:induction false} MergeCalls(group: ChatMessage, more: Messages)
    requires forall i :: 0 <= i < |more| ==> IsGroup(more[i])
    ensures Merge(group, more).toolCalls == group.toolCalls + CallsOf(more)
    decreases |more|
  {
    hide JoinContent, IsAssistant;
    if more != [] {
      MergeCalls(MergeOne(group, more[0]), more[1..]);
    }
  }

  lemma {:induction false} LeadingAreGroups(messages: Messages)
    ensures forall i :: 0 <= i < GroupLength(messages) ==> IsGroup(messages[i])
    decreases |messages|
  {
    hide IsGroup;
    if messages != [] && IsGroup(messages[0]) {
      LeadingAreGroups(messages[1..]);
    }
  }

  lemma {:induction false} CallsConcat(a: Messages, b: Messages)
    ensures CallsOf(a + b) == CallsOf(a) + CallsOf(b)
    decreases |a|
  {
    if a == [] {
      assert a + b == b;
      NoCalls([]);
    } else {
      hide *;
      CallsConcat(a[1..], b);
      ConsConcat(a, b);
      CallsStep(a);
      CallsStep(a + b);
      Assoc(if IsGroup(a[0]) then a[0].toolCalls else [], CallsOf(a[1..]), CallsOf(b));
    }
  }

  lemma {:induction false} ToolsConcat(a: Messages, b: Messages)
    ensures ToolsOf(a + b) == ToolsOf(a) + ToolsOf(b)
    decreases |a|
  {
    if a == [] {
      assert a + b == b;
      NoCalls([]);
    } else {
      hide *;
      ToolsConcat(a[1..], b);
      ConsConcat(a, b);
      CallsStep(a);
      CallsStep(a + b);
      Assoc(if IsTool(a[0]) then [a[0]] else [], ToolsOf(a[1..]), ToolsOf(b));
    }
  }

  lemma ConsConcat(a: Messages, b: Messages)
    requires a != []
    ensures a + b != [] && (a + b)[1..] == a[1..] + b && (a + b)[0] == a[0]
  {}

  lemma CallsStep(messages: Messages)
    requires messages != []
    ensures CallsOf(messages) == (if IsGroup(messages[0]) then messages[0].toolCalls else []) + CallsOf(messages[1..])
    ensures ToolsOf(messages) == (if IsTool(messages[0]) then [messages[0]] else []) + ToolsOf(messages[1..])
  {}

  /** The calls of a stream that starts with a group are the merged calls, then the rest. */
  lemma HeadCalls(messages: Messages)
    requires messages != [] && IsGroup(messages[0])
    ensures CallsOf(messages)
         == MergedHead(messages).toolCalls + CallsOf(messages[GroupLength(messages)..])
    ensures IsGroup(MergedHead(messages))
  {
    var n := GroupLength(messages);
    LeadingAreGroups(messages);
    hide IsGroup, GroupLength, CallsOf, ToolsOf, Merge;
    MergeCalls(messages[0], messages[1..n]);
    MergeKeeps(messages[0], messages[1..n]);
    assert messages == [messages[0]] + messages[1..n] + messages[n..];
    CallsConcat([messages[0]] + messages[1..n], messages[n..]);
    CallsConcat([messages[0]], messages[1..n]);
    OneMessage(messages[0]);
  }

  lemma {:induction false} AnswersAreTools(all: Messages, calls: seq<ToolCall>)
    ensures CallsOf(Answers(all, calls)) == [] && ToolsOf(Answers(all, calls)) == Answers(all, calls)
    decreases |calls|
  {
    hide Answer, IsTool, IsAssistant;
    if calls != [] {
      AnswerIsTool(all, calls[0]);
      if IsAssistant(Answer(all, calls[0])) {
        GroupNotTool(Answer(all, calls[0]));
      }
      AnswersAreTools(all, calls[1..]);
      assert Answers(all, calls)[1..] == Answers(all, calls[1..]);
    }
  }

  /** What one emitted group contributes. */
  lemma EmitParts(all: Messages, group: ChatMessage, calls: seq<ToolCall>, tail: Messages)
    requires IsAssistant(group)
    ensures CallsOf(Emit(all, group, calls) + tail) == calls + CallsOf(tail)
    ensures ToolsOf(Emit(all, group, calls) + tail) == Answers(all, calls) + ToolsOf(tail)
  {
    hide IsAssistant, IsTool, Trim, CallsOf, ToolsOf, Answers;
    var head := group.(toolCalls := calls);
    GroupNotTool(group);
    AnswersAreTools(all, calls);
    CallsConcat(Emit(all, group, calls), tail);
    ToolsConcat(Emit(all, group, calls), tail);
    SameRole(group, head);
    NoCalls(all);
    if calls != [] {
      CallsConcat([head], Answers(all, calls));
      ToolsConcat([head], Answers(all, calls));
      OneMessage(head);
    } else if Emit(all, group, calls) != [] {
      OneMessage(head);
    }
  }

  lemma NoCalls(all: Messages)
    ensures Answers(all, []) == [] && CallsOf([]) == [] && ToolsOf([]) == []
  {}

  lemma SameRole(a: ChatMessage, b: ChatMessage)
    requires a.role == b.role
    ensures IsAssistant(a) == IsAssistant(b) && IsTool(a) == IsTool(b)
  {}

  lemma OneMessage(m: ChatMessage)
    ensures CallsOf([m]) == if IsGroup(m) then m.toolCalls else []
    ensures ToolsOf([m]) == if IsTool(m) then [m] else []
  {
    hide IsGroup, IsTool;
    assert [m][1..] == [];
  }

  // ---------------------------------------------------------------- the main results

  /** Each non-blank call ID occurs once, on its first call, and carries its answer. */
  lemma {:induction false} RepairCalls(all: Messages, rest: Messages, answered: set<string>)
    ensures CallsOf(Repair(all, rest, answered)) == Fresh(CallsOf(rest), answered)
    ensures ToolsOf(Repair(all, rest, answered)) == Answers(all, CallsOf(Repair(all, rest, answered)))
    decreases |rest|
  {
    hide IsTool, IsAssistant, Emit, Answer, Fresh, Ids, MergedHead, GroupLength, Trim;
    if rest == [] {
      FreshEnd([], answered);
    } else if IsTool(rest[0]) {
      RepairCalls(all, rest[1..], answered);
      if IsAssistant(rest[0]) { GroupNotTool(rest[0]); }
      assert CallsOf(rest) == [] + CallsOf(rest[1..]) == CallsOf(rest[1..]);
    } else if !IsGroup(rest[0]) {
      RepairCalls(all, rest[1..], answered);
      CallsConcat([rest[0]], Repair(all, rest[1..], answered));
      ToolsConcat([rest[0]], Repair(all, rest[1..], answered));
      OneMessage(rest[0]);
      assert CallsOf(rest) == CallsOf(rest[1..]);
      assert [] + CallsOf(rest[1..]) == CallsOf(rest[1..]);
    } else {
      var group := MergedHead(rest);
      var calls := Fresh(group.toolCalls, answered);
      var n := GroupLength(rest);
      var tail := Repair(all, rest[n..], answered + Ids(group.toolCalls));
      HeadCalls(rest);
      RepairCalls(all, rest[n..], answered + Ids(group.toolCalls));
      EmitParts(all, group, calls, tail);
      FreshConcat(group.toolCalls, CallsOf(rest[n..]), answered);
      AnswersConcat(all, calls, CallsOf(tail));
    }
  }

  lemma {:induction false} AnswersConcat(all: Messages, a: seq<ToolCall>, b: seq<ToolCall>)
    ensures Answers(all, a + b) == Answers(all, a) + Answers(all, b)
  {
    hide Answer;
  }

  lemma AnswersAnswer(all: Messages, calls: seq<ToolCall>, tail: Messages)
    requires DistinctCalls(calls)
    ensures AnswersCalls(Answers(all, calls) + tail, calls)
  {
    hide IsTool, Trim, Answer;
    forall k | 0 <= k < |calls|
      ensures IsTool((Answers(all, calls) + tail)[k])
           && Trim((Answers(all, calls) + tail)[k].toolCallID) == Trim(calls[k].id)
    {
      AnswerIsTool(all, calls[k]);
    }
  }

  lemma ReplayableGroup(all: Messages, group: ChatMessage, calls: seq<ToolCall>, tail: Messages)
    requires IsAssistant(group) && DistinctCalls(calls) && Replayable(tail)
    ensures Replayable(Emit(all, group, calls) + tail)
  {
    hide IsTool, IsAssistant, Trim, AnswersCalls;
    var head := group.(toolCalls := calls);
    SameRole(group, head);
    GroupNotTool(group);
    var out := Emit(all, group, calls) + tail;
    if calls != [] {
      assert out[1..] == Answers(all, calls) + tail;
      assert out[1 + |calls|..] == tail;
      AnswersAnswer(all, calls, tail);
    } else if Emit(all, group, calls) == [] {
      assert out == tail;
    } else {
      assert out[1..] == tail;
    }
  }

  lemma {:induction false} RepairReplayable(all: Messages, rest: Messages, answered: set<string>)
    ensures Replayable(Repair(all, rest, answered))
    decreases |rest|
  {
    hide IsTool, IsAssistant, Emit, Fresh, Ids, MergedHead, GroupLength, DistinctCalls;
    if rest == [] {
    } else if IsTool(rest[0]) {
      RepairReplayable(all, rest[1..], answered);
    } else if !IsGroup(rest[0]) {
      RepairReplayable(all, rest[1..], answered);
      assert ([rest[0]] + Repair(all, rest[1..], answered))[1..] == Repair(all, rest[1..], answered);
    } else {
      var group := MergedHead(rest);
      HeadCalls(rest);
      FreshMeaning(group.toolCalls, answered);
      RepairReplayable(all, rest[GroupLength(rest)..], answered + Ids(group.toolCalls));
      ReplayableGroup(all, group, Fresh(group.toolCalls, answered),
        Repair(all, rest[GroupLength(rest)..], answered + Ids(group.toolCalls)));
    }
  }

  lemma {:induction false} VisibleSkipsTools(tools: Messages, tail: Messages)
    requires forall i :: 0 <= i < |tools| ==> IsTool(tools[i])
    ensures Visible(tools + tail) == Visible(tail)
    decreases |tools|
  {
    hide IsTool, IsAssistant;
    if tools == [] {
      assert tools + tail == tail;
    } else {
      assert (tools + tail)[1..] == tools[1..] + tail;
      VisibleSkipsTools(tools[1..], tail);
    }
  }

  /** A group directly followed by a tool message, or by nothing, merges with nothing. */
  lemma LoneGroup(messages: Messages)
    requires messages != [] && IsGroup(messages[0]) && (|messages| > 1 ==> !IsGroup(messages[1]))
    ensures GroupLength(messages) == 1 && MergedHead(messages) == messages[0]
  {
    hide IsGroup;
    NoGroup(messages[1..]);
    assert messages[1..1] == [];
  }

  lemma NoGroup(messages: Messages)
    requires messages == [] || !IsGroup(messages[0])
    ensures GroupLength(messages) == 0
  {}

  lemma VisibleGroup(all: Messages, group: ChatMessage, calls: seq<ToolCall>, tail: Messages)
    requires IsAssistant(group)
    ensures Visible(Emit(all, group, calls) + tail)
         == (if Trim(group.content) != "" then [group.(toolCalls := [])] else []) + Visible(tail)
  {
    hide IsTool, IsAssistant, Trim, Answer, GroupLength, MergedHead;
    var head := group.(toolCalls := calls);
    SameRole(group, head);
    GroupNotTool(group);
    var out := Emit(all, group, calls) + tail;
    if calls != [] {
      AnswerIsTool(all, calls[0]);
      if IsAssistant(out[1]) { GroupNotTool(out[1]); }
      LoneGroup(out);
      AllTools(all, calls);
      assert out[1..] == Answers(all, calls) + tail;
      VisibleSkipsTools(Answers(all, calls), tail);
    } else if Emit(all, group, calls) == [] {
      assert out == tail && [] + Visible(tail) == Visible(tail);
    } else {
      assert out[1..] == tail;
    }
  }

  lemma {:induction false} RepairVisible(all: Messages, rest: Messages, answered: set<string>)
    ensures Visible(Repair(all, rest, answered)) == Visible(rest)
    decreases |rest|
  {
    hide IsTool, IsAssistant, Emit, Fresh, Ids, MergedHead, GroupLength, Trim;
    if rest == [] {
    } else if IsTool(rest[0]) {
      RepairVisible(all, rest[1..], answered);
    } else if !IsGroup(rest[0]) {
      RepairVisible(all, rest[1..], answered);
      assert ([rest[0]] + Repair(all, rest[1..], answered))[1..] == Repair(all, rest[1..], answered);
    } else {
      var group := MergedHead(rest);
      HeadCalls(rest);
      RepairVisible(all, rest[GroupLength(rest)..], answered + Ids(group.toolCalls));
      VisibleGroup(all, group, Fresh(group.toolCalls, answered),
        Repair(all, rest[GroupLength(rest)..], answered + Ids(group.toolCalls)));
    }
  }

  lemma {:induction false} FirstResultInTools(messages: Messages, id: string)
    ensures FirstResult(messages, id) == FirstResult(ToolsOf(messages), id)
    decreases |messages|
  {
    hide IsTool, Trim;
    if messages != [] {
      FirstResultInTools(messages[1..], id);
      if IsTool(messages[0]) {
        assert ([messages[0]] + ToolsOf(messages[1..]))[1..] == ToolsOf(messages[1..]);
      } else {
        assert [] + ToolsOf(messages[1..]) == ToolsOf(messages[1..]);
      }
    }
  }

  lemma {:induction false} FirstResultOfAnswers(all: Messages, calls: seq<ToolCall>, k: nat)
    requires DistinctCalls(calls) && k < |calls|
    ensures FirstResult(Answers(all, calls), Trim(calls[k].id)) == Some(Answer(all, calls[k]))
    decreases k
  {
    hide IsTool, Trim, Answer;
    AnswerIsTool(all, calls[0]);
    if k > 0 {
      assert Answers(all, calls)[1..] == Answers(all, calls[1..]);
      FirstResultOfAnswers(all, calls[1..], k - 1);
    }
  }

  lemma {:induction false} ToolsHead(tools: Messages, tail: Messages)
    requires forall i :: 0 <= i < |tools| ==> IsTool(tools[i])
    ensures ToolsOf(tools + tail) == tools + ToolsOf(tail)
    ensures CallsOf(tools + tail) == CallsOf(tail)
    decreases |tools|
  {
    hide IsTool, IsAssistant;
    if tools == [] {
      assert tools + tail == tail;
    } else {
      if IsAssistant(tools[0]) { GroupNotTool(tools[0]); }
      assert (tools + tail)[1..] == tools[1..] + tail;
      ToolsHead(tools[1..], tail);
      assert [] + CallsOf(tail) == CallsOf(tail);
    }
  }

  /** A replayable stream whose answers are already the recorded ones is left alone. */
  lemma {:induction false} RepairFixed(all: Messages, rest: Messages, answered: set<string>)
    requires Replayable(rest) && DistinctCalls(CallsOf(rest))
    requires forall i :: 0 <= i < |CallsOf(rest)| ==> Trim(CallsOf(rest)[i].id) !in answered
    requires ToolsOf(rest) == Answers(all, CallsOf(rest))
    ensures Repair(all, rest, answered) == rest
    decreases |rest|
  {
    hide IsTool, IsAssistant, Trim, Answers, Fresh, Ids, DistinctCalls, AnswersCalls, GroupLength, MergedHead;
    if rest == [] {
    } else if IsGroup(rest[0]) {
      GroupParts(all, rest);
      FixedGroup(rest, answered);
      var calls := rest[0].toolCalls;
      hide Repair, CallsOf, ToolsOf;
      RepairFixed(all, rest[1 + |calls|..], answered + Ids(calls));
      FixedStep(all, rest, answered);
    } else {
      CallsStep(rest);
      hide CallsOf, ToolsOf;
      assert CallsOf(rest) == CallsOf(rest[1..]);
      assert ToolsOf(rest) == ToolsOf(rest[1..]);
      RepairFixed(all, rest[1..], answered);
      assert rest == [rest[0]] + rest[1..];
    }
  }

  lemma {:induction false} RepairSkipsTools(all: Messages, tools: Messages, tail: Messages, answered: set<string>)
    requires forall i :: 0 <= i < |tools| ==> IsTool(tools[i])
    ensures Repair(all, tools + tail, answered) == Repair(all, tail, answered)
    decreases |tools|
  {
    hide IsTool, IsGroup, Emit, Fresh, Ids, MergedHead, GroupLength;
    if tools == [] {
      assert tools + tail == tail;
    } else {
      assert (tools + tail)[1..] == tools[1..] + tail;
      RepairSkipsTools(all, tools[1..], tail, answered);
    }
  }

  lemma AllTools(all: Messages, calls: seq<ToolCall>)
    ensures forall i :: 0 <= i < |calls| ==> IsTool(Answers(all, calls)[i])
  {
    hide Answer, IsTool;
    forall i | 0 <= i < |calls|
      ensures IsTool(Answers(all, calls)[i])
    {
      AnswerIsTool(all, calls[i]);
    }
  }

  lemma RepairGroup(all: Messages, rest: Messages, answered: set<string>)
    requires rest != [] && IsGroup(rest[0])
    ensures var group := MergedHead(rest);
            Repair(all, rest, answered)
            == Emit(all, group, Fresh(group.toolCalls, answered))
               + Repair(all, rest[GroupLength(rest)..], answered + Ids(group.toolCalls))
  {
    hide Emit, Fresh, Ids, MergedHead, GroupLength, Trim;
    GroupNotTool(rest[0]);
  }

  lemma FixedStep(all: Messages, rest: Messages, answered: set<string>)
    requires rest != [] && IsGroup(rest[0]) && 1 + |rest[0].toolCalls| <= |rest|
    requires GroupLength(rest) == 1 && MergedHead(rest) == rest[0]
    requires rest[1..1 + |rest[0].toolCalls|] == Answers(all, rest[0].toolCalls)
    requires Fresh(rest[0].toolCalls, answered) == rest[0].toolCalls
    requires var calls := rest[0].toolCalls;
             Repair(all, rest[1 + |calls|..], answered + Ids(calls)) == rest[1 + |calls|..]
    ensures Repair(all, rest, answered) == rest
  {
    var head := rest[0];
    var calls := head.toolCalls;
    var answers := Answers(all, calls);
    var tail := rest[1 + |calls|..];
    AllTools(all, calls);
    EmitWhole(all, head);
    HeadMiddleTail(rest, |calls|);
    RepairGroup(all, rest, answered);
    hide *;
    RepairSkipsTools(all, answers, tail, answered + Ids(calls));
  }

  lemma EmitWhole(all: Messages, group: ChatMessage)
    requires group.toolCalls != []
    ensures Emit(all, group, group.toolCalls) == [group] + Answers(all, group.toolCalls)
  {
    assert group.(toolCalls := group.toolCalls) == group;
  }

  /** The parts of a replayable stream that starts with a group. */
  lemma GroupParts(all: Messages, rest: Messages)
    requires rest != [] && IsGroup(rest[0]) && Replayable(rest)
    requires ToolsOf(rest) == Answers(all, CallsOf(rest))
    ensures var calls := rest[0].toolCalls;
            && 1 + |calls| <= |rest|
            && CallsOf(rest) == calls + CallsOf(rest[1 + |calls|..])
            && rest[1..1 + |calls|] == Answers(all, calls)
            && ToolsOf(rest[1 + |calls|..]) == Answers(all, CallsOf(rest[1 + |calls|..]))
            && GroupLength(rest) == 1 && MergedHead(rest) == rest[0] && !IsTool(rest[0])
  {
    hide IsTool, IsAssistant, Trim, Answer, GroupLength, MergedHead;
    var calls := rest[0].toolCalls;
    var tools := rest[1..1 + |calls|];
    var tail := rest[1 + |calls|..];
    assert rest[1..] == tools + tail;
    GroupNotTool(rest[0]);
    ToolsHead(tools, tail);
    if IsAssistant(rest[1]) { assert rest[1] == rest[1..][0]; GroupNotTool(rest[1]); }
    LoneGroup(rest);
    AnswersConcat(all, calls, CallsOf(tail));
    assert ToolsOf(rest) == [] + ToolsOf(rest[1..]) == tools + ToolsOf(tail);
    assert tools == ToolsOf(rest)[..|calls|] == Answers(all, calls);
    assert ToolsOf(tail) == ToolsOf(rest)[|calls|..] == Answers(all, CallsOf(tail));
  }

  lemma FixedGroup(rest: Messages, answered: set<string>)
    requires rest != [] && 1 + |rest[0].toolCalls| <= |rest|
    requires CallsOf(rest) == rest[0].toolCalls + CallsOf(rest[1 + |rest[0].toolCalls|..])
    requires DistinctCalls(CallsOf(rest))
    requires forall i :: 0 <= i < |CallsOf(rest)| ==> Trim(CallsOf(rest)[i].id) !in answered
    ensures var calls := rest[0].toolCalls;
            var later := CallsOf(rest[1 + |calls|..]);
            && Fresh(calls, answered) == calls
            && DistinctCalls(later)
            && forall i :: 0 <= i < |later| ==> Trim(later[i].id) !in answered + Ids(calls)
  {
    hide Trim, CallsOf, Fresh, Ids;
    var calls := rest[0].toolCalls;
    var later := CallsOf(rest[1 + |calls|..]);
    var both := CallsOf(rest);
    assert forall i :: 0 <= i < |calls| ==> calls[i] == both[i];
    assert forall i :: 0 <= i < |later| ==> later[i] == both[|calls| + i];
    FreshFixed(calls, answered);
    IdsMember(calls);
  }

  /**
    The repair: replayable, each call once on its first occurrence, each answer the first
    recorded one, everything else a reader sees unchanged, and nothing left for a second pass.
   */
  lemma NormalizedMeaning(messages: Messages)
    ensures var out := Normalized(messages);
            && Replayable(out)
            && CallsOf(out) == Fresh(CallsOf(messages), {})
            && DistinctCalls(CallsOf(out)) && Ids(CallsOf(out)) == Ids(CallsOf(messages))
            && ToolsOf(out) == Answers(messages, CallsOf(out))
            && Visible(out) == Visible(messages)
  {
    hide *;
    NormalizedIs(messages);
    RepairReplayable(messages, messages, {});
    RepairCalls(messages, messages, {});
    RepairVisible(messages, messages, {});
    FreshMeaning(CallsOf(messages), {});
    FreshIds(CallsOf(messages), {});
    assert Ids(CallsOf(messages)) - {} == Ids(CallsOf(messages));
  }

  lemma NormalizedIs(messages: Messages)
    ensures Normalized(messages) == Repair(messages, messages, {})
  {}

  lemma NormalizedIdempotent(messages: Messages)
    ensures Normalized(Normalized(messages)) == Normalized(messages)
  {
    var out := Normalized(messages);
    NormalizedMeaning(messages);
    NormalizedIs(out);
    hide Normalized, Repair, Replayable, CallsOf, ToolsOf, Fresh, Trim, DistinctCalls, Ids, Visible;
    var calls := CallsOf(out);
    forall k | 0 <= k < |calls|
      ensures Answer(out, calls[k]) == Answer(messages, calls[k])
    {
      FirstResultInTools(out, Trim(calls[k].id));
      FirstResultOfAnswers(messages, calls, k);
    }
    assert Answers(out, calls) == Answers(messages, calls);
    RepairFixed(out, out, {});
  }
}
