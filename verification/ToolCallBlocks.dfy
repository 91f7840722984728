/**
  The repair of tool-call pairing, position by position: what each message of the input
  contributes to the output, on the fields of the messages alone.
 */
module ToolCallBlocks {
  import opened Wrappers
  import opened Seqs
  import opened Text
  import opened Chat
  import opened ToolCallPairing

  /** Position `i` holds an assistant message with calls. */
  predicate Asks(messages: Messages, i: int)
  {
    0 <= i < |messages| && IsAssistant(messages[i]) && |messages[i].toolCalls| > 0
  }

  /** Where the run of such messages around position `i` ends. */
  function RunEnd(messages: Messages, i: nat): (b: nat)
    requires Asks(messages, i)
    ensures i < b <= |messages| && !Asks(messages, b) && forall k :: i <= k < b ==> Asks(messages, k)
    decreases |messages| - i
  {
    if Asks(messages, i + 1) then RunEnd(messages, i + 1) else i + 1
  }

  // ---------------------------------------------------------------- the calls that are kept

  /** Call `c` of position `i` has the ID. */
  predicate Named(messages: Messages, i: nat, c: nat, id: string)
  {
    Asks(messages, i) && c < |messages[i].toolCalls| && Trim(messages[i].toolCalls[c].id) == id
  }

  /** An earlier call, of an earlier message or of the same, has the ID already. */
  ghost predicate Taken(messages: Messages, i: nat, c: nat, id: string)
  {
    exists j: nat, d: nat :: Named(messages, j, d, id) && (j < i || (j == i && d < c))
  }

  /** The calls of one message from the `c`-th on that have an ID no earlier call has. */
  ghost function NewAt(messages: Messages, i: nat, c: nat): seq<ToolCall>
    requires Asks(messages, i) && c <= |messages[i].toolCalls|
    decreases |messages[i].toolCalls| - c
  {
    if c == |messages[i].toolCalls| then []
    else
      var call := messages[i].toolCalls[c];
      (if Trim(call.id) != "" && !Taken(messages, i, c, Trim(call.id)) then [call] else []) + NewAt(messages, i, c + 1)
  }

  ghost function NewCalls(messages: Messages, i: nat, b: nat): seq<ToolCall>
    requires i <= b && forall k :: i <= k < b ==> Asks(messages, k)
    decreases b - i
  {
    if i == b then [] else NewAt(messages, i, 0) + NewCalls(messages, i + 1, b)
  }

  // ---------------------------------------------------------------- the prose that is kept

  function Contents(messages: Messages): (r: seq<string>)
    ensures |r| == |messages|
  {
    seq(|messages|, i requires 0 <= i < |messages| => messages[i].content)
  }

  function Paragraphs(contents: seq<string>): seq<string>
  {
    if contents == [] then []
    else (if Trim(contents[0]) == "" then [] else [contents[0]]) + Paragraphs(contents[1..])
  }

  function Joined(paragraphs: seq<string>): string
  {
    if paragraphs == [] then ""
    else if |paragraphs| == 1 then paragraphs[0]
    else paragraphs[0] + "\n\n" + Joined(paragraphs[1..])
  }

  /** The paragraphs that are not blank, with a blank line between them; blank prose is the last one's. */
  function Prose(contents: seq<string>): string
    requires contents != []
  {
    if Paragraphs(contents) == [] then contents[|contents| - 1] else Joined(Paragraphs(contents))
  }

  // ---------------------------------------------------------------- what each position contributes

  predicate FirstFor(messages: Messages, i: nat, id: string)
  {
    && i < |messages| && IsTool(messages[i]) && Trim(messages[i].toolCallID) == id
    && forall j :: 0 <= j < i && IsTool(messages[j]) ==> Trim(messages[j].toolCallID) != id
  }

  predicate NoneFor(messages: Messages, id: string)
  {
    forall j :: 0 <= j < |messages| && IsTool(messages[j]) ==> Trim(messages[j].toolCallID) != id
  }

  /** `r` is the first result recorded for the call, or the placeholder when there is none. */
  ghost predicate Answering(messages: Messages, call: ToolCall, r: ChatMessage)
  {
    || (exists i: nat :: FirstFor(messages, i, Trim(call.id)) && r == messages[i])
    || (NoneFor(messages, Trim(call.id))
        && r == ChatMessage("tool", UNSETTLED, call.name, Trim(call.id), [], [], map[], ""))
  }

  /** A run of assistant messages with calls: its prose and new calls, and behind them their answers. */
  ghost predicate RunBlock(messages: Messages, i: nat, out: Messages)
    requires Asks(messages, i)
  {
    var b := RunEnd(messages, i);
    var prose, calls := Prose(Contents(messages[i..b])), NewCalls(messages, i, b);
    if calls != []
    then && |out| == 1 + |calls| && out[0] == messages[i].(content := prose, toolCalls := calls)
         && forall k :: 0 <= k < |calls| ==> Answering(messages, calls[k], out[k + 1])
    else out == if Trim(prose) != "" then [messages[i].(content := prose, toolCalls := [])] else []
  }

  /** What position `i` contributes: a run of calls where it starts, results nothing, any other message itself. */
  ghost predicate Block(messages: Messages, i: nat, out: Messages)
    requires i < |messages|
  {
    if IsTool(messages[i]) then out == []
    else if !Asks(messages, i) then out == [messages[i]]
    else if Asks(messages, i - 1) then out == []
    else RunBlock(messages, i, out)
  }

  // ---------------------------------------------------------------- answers

  lemma {:induction false} FirstResultIs(messages: Messages, id: string)
    ensures FirstResult(messages, id).None? ==> NoneFor(messages, id)
    ensures FirstResult(messages, id).Some? ==>
              exists i: nat :: FirstFor(messages, i, id) && FirstResult(messages, id).value == messages[i]
    decreases |messages|
  {
    hide IsTool, Trim;
    if messages != [] {
      var rest := messages[1..];
      assert forall j :: 0 < j < |messages| ==> messages[j] == rest[j - 1];
      FirstResultIs(rest, id);
      if IsTool(messages[0]) && Trim(messages[0].toolCallID) == id {
        assert FirstFor(messages, 0, id);
      } else if FirstResult(rest, id).Some? {
        var i: nat :| FirstFor(rest, i, id) && FirstResult(rest, id).value == rest[i];
        assert FirstFor(messages, i + 1, id);
      }
    }
  }

  lemma AnswerAnswers(messages: Messages, call: ToolCall)
    ensures Answering(messages, call, Answer(messages, call))
  {
    hide FirstResult, Trim, FirstFor, NoneFor;
    FirstResultIs(messages, Trim(call.id));
  }

  // ---------------------------------------------------------------- prose

  lemma {:induction false} SpaceTrims(s: string, n: nat)
    requires n < |s| && !IsSpace(s[n])
    ensures Trim(s) != ""
  {
    hide IsSpace, TrimLeft, TrimRight;
    LeftKeeps(s, n);
    var t := TrimLeft(s);
    var k :| 0 <= k < |t| && !IsSpace(t[k]);
    RightKeeps(t, k);
  }

  lemma {:induction false} LeftKeeps(s: string, n: nat)
    requires n < |s| && !IsSpace(s[n])
    ensures exists k :: 0 <= k < |TrimLeft(s)| && !IsSpace(TrimLeft(s)[k])
    decreases |s|
  {
    hide IsSpace;
    if IsSpace(s[0]) {
      assert s[1..][n - 1] == s[n];
      LeftKeeps(s[1..], n - 1);
      assert TrimLeft(s) == TrimLeft(s[1..]);
    } else {
      assert TrimLeft(s) == s && !IsSpace(TrimLeft(s)[n]);
    }
  }

  lemma {:induction false} RightKeeps(s: string, n: nat)
    requires n < |s| && !IsSpace(s[n])
    ensures TrimRight(s) != ""
    decreases |s|
  {
    hide IsSpace;
    if IsSpace(s[|s| - 1]) {
      RightKeeps(s[..|s| - 1], n);
    }
  }

  lemma {:induction false} AllSpaceTrims(s: string)
    requires forall n :: 0 <= n < |s| ==> IsSpace(s[n])
    ensures Trim(s) == ""
  {
    hide IsSpace;
    if s != "" {
      AllSpaceTrims(s[1..]);
    }
  }

  /** A text with a text that is not blank in it is not blank. */
  lemma JoinNotBlank(x: string, y: string)
    requires Trim(x) != ""
    ensures Trim(x + y) != ""
  {
    hide Trim, IsSpace;
    if forall n :: 0 <= n < |x| ==> IsSpace(x[n]) {
      AllSpaceTrims(x);
    } else {
      var n :| 0 <= n < |x| && !IsSpace(x[n]);
      assert (x + y)[n] == x[n];
      SpaceTrims(x + y, n);
    }
  }

  lemma ParagraphsStep(x: string, rest: seq<string>)
    ensures Paragraphs([x] + rest) == (if Trim(x) == "" then [] else [x]) + Paragraphs(rest)
  {
    hide Trim;
    assert ([x] + rest)[1..] == rest;
  }

  lemma JoinedStep(x: string, rest: seq<string>)
    ensures Joined([x] + rest) == if rest == [] then x else x + "\n\n" + Joined(rest)
  {
    assert ([x] + rest)[1..] == rest;
  }

  /** Joining the first two contents does not change the prose. */
  lemma ProseJoins(x: string, y: string, rest: seq<string>)
    ensures Prose([JoinContent(x, y)] + rest) == Prose([x, y] + rest)
  {
    hide Trim, Paragraphs, Joined;
    var z := JoinContent(x, y);
    assert [x, y] + rest == [x] + ([y] + rest);
    ParagraphsStep(x, [y] + rest);
    ParagraphsStep(y, rest);
    ParagraphsStep(z, rest);
    if Trim(x) != "" && Trim(y) != "" {
      JoinNotBlank(x, "\n\n" + y);
      assert x + ("\n\n" + y) == z;
      var p := Paragraphs(rest);
      assert [x] + ([y] + p) == [x, y] + p;
      JoinedStep(x, [y] + p);
      JoinedStep(y, p);
      JoinedStep(z, p);
      assert x + "\n\n" + (y + "\n\n" + Joined(p)) == (x + "\n\n" + y) + "\n\n" + Joined(p);
    } else {
      var p := Paragraphs(rest);
      assert [] + p == p && [] + ([y] + p) == [y] + p;
      assert Paragraphs([z] + rest) == Paragraphs([x, y] + rest);
    }
  }

  lemma {:induction false} MergedProse(group: ChatMessage, more: Messages)
    ensures Merge(group, more).content == Prose([group.content] + Contents(more))
    decreases |more|
  {
    hide JoinContent, Trim, Prose;
    if more == [] {
      assert [group.content] + Contents(more) == [group.content];
      OneProse(group.content);
    } else {
      var next := MergeOne(group, more[0]);
      MergedProse(next, more[1..]);
      ProseJoins(group.content, more[0].content, Contents(more[1..]));
      assert [group.content, more[0].content] + Contents(more[1..]) == [group.content] + Contents(more);
    }
  }

  lemma OneProse(x: string)
    ensures Prose([x]) == x
  {
    hide Trim;
    assert [x][1..] == [] && Paragraphs([]) == [];
    assert Paragraphs([x]) == (if Trim(x) == "" then [] else [x]) + [];
  }

  lemma {:induction false} MergedRest(group: ChatMessage, more: Messages)
    ensures Merge(group, more) == group.(content := Merge(group, more).content, toolCalls := Merge(group, more).toolCalls)
    decreases |more|
  {
    hide JoinContent;
    if more != [] {
      MergedRest(MergeOne(group, more[0]), more[1..]);
    }
  }

  // ---------------------------------------------------------------- runs

  lemma {:induction false} RunIsGroup(messages: Messages, i: nat)
    requires Asks(messages, i)
    ensures RunEnd(messages, i) == i + GroupLength(messages[i..])
    decreases |messages| - i
  {
    hide IsAssistant;
    var rest := messages[i..];
    assert rest[1..] == messages[i + 1..];
    if Asks(messages, i + 1) {
      RunIsGroup(messages, i + 1);
    }
  }

  /** The merged head of a run: first message, prose, and all calls. */
  lemma RunMerged(messages: Messages, i: nat)
    requires Asks(messages, i)
    ensures var b, head := RunEnd(messages, i), MergedHead(messages[i..]);
            && head == messages[i].(content := Prose(Contents(messages[i..b])), toolCalls := CallsOf(messages[i..b]))
  {
    hide *;
    var b, first := RunEnd(messages, i), messages[i];
    var more := messages[i + 1..b];
    RunIsGroup(messages, i);
    HeadIsMerge(messages, i);
    MergedProse(first, more);
    MergedRest(first, more);
    RunAsks(messages, i);
    MergeCalls(first, more);
    assert [first] + more == messages[i..b];
    CallsConcat([first], more);
    OneMessage(first);
    ContentsCons(first, more);
  }

  lemma RunAsks(messages: Messages, i: nat)
    requires Asks(messages, i)
    ensures IsGroup(messages[i])
    ensures var more := messages[i + 1..RunEnd(messages, i)]; forall k :: 0 <= k < |more| ==> IsGroup(more[k])
  {
    hide IsAssistant;
    var more := messages[i + 1..RunEnd(messages, i)];
    forall k | 0 <= k < |more|
      ensures IsGroup(more[k])
    {
      assert more[k] == messages[i + 1 + k] && Asks(messages, i + 1 + k);
    }
  }

  lemma HeadIsMerge(messages: Messages, i: nat)
    requires Asks(messages, i) && RunEnd(messages, i) == i + GroupLength(messages[i..])
    ensures MergedHead(messages[i..]) == Merge(messages[i], messages[i + 1..RunEnd(messages, i)])
  {
    hide IsAssistant, Merge, GroupLength, RunEnd;
    var rest := messages[i..];
    assert rest[1..GroupLength(rest)] == messages[i + 1..RunEnd(messages, i)];
  }

  lemma ContentsCons(m: ChatMessage, more: Messages)
    ensures Contents([m] + more) == [m.content] + Contents(more)
  {}

  // ---------------------------------------------------------------- new calls

  /** The non-blank IDs in front of position `i`. */
  function Before(messages: Messages, i: nat): set<string>
    requires i <= |messages|
  {
    Ids(CallsOf(messages[..i]))
  }

  lemma {:induction false} IdsConcat(a: seq<ToolCall>, b: seq<ToolCall>)
    ensures Ids(a + b) == Ids(a) + Ids(b)
  {
    hide Trim;
    if a == [] {
      assert a + b == b;
    } else {
      assert (a + b)[1..] == a[1..] + b;
      IdsConcat(a[1..], b);
    }
  }

  lemma BeforeStep(messages: Messages, i: nat)
    requires i < |messages|
    ensures Before(messages, i + 1) == Before(messages, i) + (if Asks(messages, i) then Ids(messages[i].toolCalls) else {})
  {
    hide IsAssistant, CallsOf, Ids;
    assert messages[..i + 1] == messages[..i] + [messages[i]];
    CallsConcat(messages[..i], [messages[i]]);
    OneMessage(messages[i]);
    IdsConcat(CallsOf(messages[..i]), if IsGroup(messages[i]) then messages[i].toolCalls else []);
    NoIds();
  }

  lemma NoIds()
    ensures Ids([]) == {}
  {}

  /** The IDs in front of call `c` of position `i` are those of the earlier calls. */
  lemma {:induction false} BeforeMeaning(messages: Messages, i: nat, id: string)
    requires i <= |messages|
    ensures id in Before(messages, i) <==> id != "" && Taken(messages, i, 0, id)
    decreases i
  {
    hide IsAssistant, Trim, CallsOf, Ids, Before;
    if i == 0 {
      NothingBefore(messages);
    } else {
      BeforeStep(messages, i - 1);
      BeforeMeaning(messages, i - 1, id);
      if Asks(messages, i - 1) {
        IdsMember(messages[i - 1].toolCalls);
        TakenInMessage(messages, i - 1, |messages[i - 1].toolCalls|, id);
      }
      TakenNext(messages, i - 1, id);
    }
  }

  lemma NothingBefore(messages: Messages)
    ensures Before(messages, 0) == {}
  {}

  lemma TakenInMessage(messages: Messages, i: nat, c: nat, id: string)
    requires Asks(messages, i) && c <= |messages[i].toolCalls|
    ensures Taken(messages, i, c, id) <==>
              Taken(messages, i, 0, id) || exists d :: 0 <= d < c && Trim(messages[i].toolCalls[d].id) == id
  {
    hide IsAssistant, Trim;
    if d :| 0 <= d < c && Trim(messages[i].toolCalls[d].id) == id {
      assert Named(messages, i, d, id);
    }
  }

  /** What is taken in front of the next message is taken in front of this one or by it. */
  lemma TakenNext(messages: Messages, i: nat, id: string)
    requires i < |messages|
    ensures Taken(messages, i + 1, 0, id) <==>
              Taken(messages, i, if Asks(messages, i) then |messages[i].toolCalls| else 0, id)
  {
    hide IsAssistant, Trim;
  }

  lemma {:induction false} FreshIsNew(messages: Messages, i: nat, c: nat, answered: set<string>)
    requires Asks(messages, i) && c <= |messages[i].toolCalls|
    requires forall id :: id in answered <==> id != "" && Taken(messages, i, c, id)
    ensures Fresh(messages[i].toolCalls[c..], answered) == NewAt(messages, i, c)
    decreases |messages[i].toolCalls| - c
  {
    hide IsAssistant, Trim, Taken;
    var calls := messages[i].toolCalls;
    if c < |calls| {
      FreshStep(calls, c, answered);
      var id := Trim(calls[c].id);
      var next := if id == "" || id in answered then answered else answered + {id};
      forall x
        ensures x in next <==> x != "" && Taken(messages, i, c + 1, x)
      {
        TakenInMessage(messages, i, c, x);
        TakenInMessage(messages, i, c + 1, x);
      }
      FreshIsNew(messages, i, c + 1, next);
    }
  }

  lemma {:induction false} FreshOfRun(messages: Messages, i: nat, b: nat)
    requires i <= b <= |messages| && forall k :: i <= k < b ==> Asks(messages, k)
    ensures Fresh(CallsOf(messages[i..b]), Before(messages, i)) == NewCalls(messages, i, b)
    ensures Before(messages, i) + Ids(CallsOf(messages[i..b])) == Before(messages, b)
    decreases b - i
  {
    hide IsAssistant, Trim, Before, Fresh, CallsOf, Ids, NewAt, Taken;
    if i == b {
      NoCalls([]);
      FreshEnd([], Before(messages, i));
    } else {
      var calls := messages[i].toolCalls;
      assert Asks(messages, i);
      assert messages[i..b] == [messages[i]] + messages[i + 1..b];
      CallsConcat([messages[i]], messages[i + 1..b]);
      OneMessage(messages[i]);
      FreshConcat(calls, CallsOf(messages[i + 1..b]), Before(messages, i));
      IdsConcat(calls, CallsOf(messages[i + 1..b]));
      BeforeStep(messages, i);
      forall id
        ensures id in Before(messages, i) <==> id != "" && Taken(messages, i, 0, id)
      {
        BeforeMeaning(messages, i, id);
      }
      assert calls[0..] == calls;
      FreshIsNew(messages, i, 0, Before(messages, i));
      FreshOfRun(messages, i + 1, b);
    }
  }

  // ---------------------------------------------------------------- the closed form

  /** What the repair emits for a run is the run's block. */
  lemma EmittedBlock(messages: Messages, i: nat)
    requires Asks(messages, i)
    ensures var head := MergedHead(messages[i..]);
            RunBlock(messages, i, Emit(messages, head, Fresh(head.toolCalls, Before(messages, i))))
  {
    hide IsAssistant, Trim, Before, Fresh, CallsOf, NewCalls, MergedHead, Prose, Contents, Answering, RunEnd, Answer;
    var b, head := RunEnd(messages, i), MergedHead(messages[i..]);
    RunMerged(messages, i);
    FreshOfRun(messages, i, b);
    var calls := NewCalls(messages, i, b);
    forall k | 0 <= k < |calls|
      ensures Answering(messages, calls[k], Answers(messages, calls)[k])
    {
      AnswerAnswers(messages, calls[k]);
    }
  }

  function Nothing(n: nat): (r: seq<Messages>)
    ensures |r| == n && forall k :: 0 <= k < n ==> r[k] == []
  {
    if n == 0 then [] else [[]] + Nothing(n - 1)
  }

  lemma {:induction false} FlattenNothing(n: nat, rest: seq<Messages>)
    ensures Flatten(Nothing(n) + rest) == Flatten(rest)
  {
    if n == 0 {
      assert Nothing(0) + rest == rest;
    } else {
      assert (Nothing(n) + rest)[1..] == Nothing(n - 1) + rest;
      FlattenNothing(n - 1, rest);
    }
  }

  lemma FlattenCons(first: Messages, rest: seq<Messages>)
    ensures Flatten([first] + rest) == first + Flatten(rest)
  {
    assert ([first] + rest)[1..] == rest;
  }

  ghost predicate Blocks(messages: Messages, i: nat, blocks: seq<Messages>)
    requires i <= |messages|
  {
    |blocks| == |messages| - i && forall k :: 0 <= k < |blocks| ==> Block(messages, i + k, blocks[k])
  }

  lemma BlocksCons(messages: Messages, i: nat, first: Messages, rest: seq<Messages>)
    requires i < |messages| && Block(messages, i, first) && Blocks(messages, i + 1, rest)
    ensures Blocks(messages, i, [first] + rest)
  {
    hide Block;
    var blocks := [first] + rest;
    forall k | 0 <= k < |blocks|
      ensures Block(messages, i + k, blocks[k])
    {
      assert k > 0 ==> Block(messages, i + 1 + (k - 1), rest[k - 1]);
    }
  }

  /** Inside a run the later positions contribute nothing. */
  lemma BlocksRun(messages: Messages, i: nat, first: Messages, rest: seq<Messages>)
    requires Asks(messages, i) && Block(messages, i, first) && Blocks(messages, RunEnd(messages, i), rest)
    ensures Blocks(messages, i, [first] + Nothing(RunEnd(messages, i) - i - 1) + rest)
  {
    hide RunBlock, RunEnd, IsTool, IsAssistant;
    var b := RunEnd(messages, i);
    var blocks := [first] + Nothing(b - i - 1) + rest;
    forall k | 0 <= k < |blocks|
      ensures Block(messages, i + k, blocks[k])
    {
      if 0 < k < b - i {
        assert Asks(messages, i + k) && Asks(messages, i + k - 1) && blocks[k] == [];
        GroupNotTool(messages[i + k]);
      } else if k >= b - i {
        assert Block(messages, b + (k - (b - i)), rest[k - (b - i)]);
        assert blocks[k] == rest[k - (b - i)];
      }
    }
  }

  /** The repair at the start of a run. */
  lemma RepairRun(messages: Messages, i: nat)
    requires Asks(messages, i)
    ensures var head, b := MergedHead(messages[i..]), RunEnd(messages, i);
            Repair(messages, messages[i..], Before(messages, i))
              == Emit(messages, head, Fresh(head.toolCalls, Before(messages, i)))
                 + Repair(messages, messages[b..], Before(messages, b))
  {
    hide IsTool, IsAssistant, Before, Repair, GroupLength, MergedHead, Emit, Fresh, RunEnd, Ids, CallsOf;
    RepairStep(messages, i, Before(messages, i));
    RunIsGroup(messages, i);
    RunMerged(messages, i);
    FreshOfRun(messages, i, RunEnd(messages, i));
  }

  /** The repair at any other message. */
  lemma RepairOther(messages: Messages, i: nat)
    requires i < |messages| && !Asks(messages, i)
    ensures Repair(messages, messages[i..], Before(messages, i))
         == (if IsTool(messages[i]) then [] else [messages[i]])
            + Repair(messages, messages[i + 1..], Before(messages, i + 1))
  {
    hide IsTool, IsAssistant, Before, Repair, GroupLength, MergedHead, Emit, Fresh, Ids;
    RepairStep(messages, i, Before(messages, i));
    BeforeStep(messages, i);
    assert Before(messages, i) + {} == Before(messages, i);
    var rest := Repair(messages, messages[i + 1..], Before(messages, i));
    assert [] + rest == rest;
  }

  lemma OtherBlock(messages: Messages, i: nat)
    requires i < |messages| && !Asks(messages, i)
    ensures Block(messages, i, if IsTool(messages[i]) then [] else [messages[i]])
  {
    hide IsTool, IsAssistant;
  }

  lemma RunBlockIs(messages: Messages, i: nat)
    requires Asks(messages, i) && !Asks(messages, i - 1)
    ensures var head := MergedHead(messages[i..]);
            Block(messages, i, Emit(messages, head, Fresh(head.toolCalls, Before(messages, i))))
  {
    hide IsTool, IsAssistant, MergedHead, Emit, Fresh, Before, RunBlock;
    GroupNotTool(messages[i]);
    EmittedBlock(messages, i);
  }

  lemma {:induction false} RepairBlocks(messages: Messages, i: nat) returns (blocks: seq<Messages>)
    requires i <= |messages| && !(Asks(messages, i - 1) && Asks(messages, i))
    ensures Blocks(messages, i, blocks)
    ensures Repair(messages, messages[i..], Before(messages, i)) == Flatten(blocks)
    decreases |messages| - i
  {
    hide *;
    if i == |messages| {
      blocks := [];
      NothingLeft(messages);
    } else if Asks(messages, i) {
      var b, head := RunEnd(messages, i), MergedHead(messages[i..]);
      RepairRun(messages, i);
      RunBlockIs(messages, i);
      var rest := RepairBlocks(messages, b);
      var first := Emit(messages, head, Fresh(head.toolCalls, Before(messages, i)));
      BlocksRun(messages, i, first, rest);
      blocks := [first] + Nothing(b - i - 1) + rest;
      assert blocks == [first] + (Nothing(b - i - 1) + rest);
      FlattenCons(first, Nothing(b - i - 1) + rest);
      FlattenNothing(b - i - 1, rest);
    } else {
      RepairOther(messages, i);
      OtherBlock(messages, i);
      var rest := RepairBlocks(messages, i + 1);
      var first := if IsTool(messages[i]) then [] else [messages[i]];
      BlocksCons(messages, i, first, rest);
      FlattenCons(first, rest);
      blocks := [first] + rest;
    }
  }

  lemma NothingLeft(messages: Messages)
    ensures Repair(messages, messages[|messages|..], Before(messages, |messages|)) == [] == Flatten<ChatMessage>([])
    ensures Blocks(messages, |messages|, [])
  {}

  /**
    The repaired list is exactly what its input contributes, position by position: each run
    of assistant messages with calls where it starts, as one message with the joined prose
    and the calls whose ID is new, and directly behind it the first result recorded for each
    of them or the placeholder; results nowhere else; every other message as it is.
   */
  lemma NormalizedClosedForm(messages: Messages) returns (blocks: seq<Messages>)
    ensures |blocks| == |messages| && forall i :: 0 <= i < |messages| ==> Block(messages, i, blocks[i])
    ensures Normalized(messages) == Flatten(blocks)
  {
    hide Repair, Block, Flatten, Before;
    blocks := RepairBlocks(messages, 0);
    NothingBefore(messages);
    NormalizedIs(messages);
    assert messages[0..] == messages;
    forall i | 0 <= i < |messages|
      ensures Block(messages, i, blocks[i])
    {
      assert Block(messages, 0 + i, blocks[i]);
    }
  }

  lemma {:induction false} FlattenMember(blocks: seq<Messages>, x: ChatMessage)
    requires x in Flatten(blocks)
    ensures exists i :: 0 <= i < |blocks| && x in blocks[i]
    decreases |blocks|
  {
    if x !in blocks[0] {
      FlattenMember(blocks[1..], x);
      var i :| 0 <= i < |blocks[1..]| && x in blocks[1..][i];
      assert blocks[i + 1] == blocks[1..][i];
    }
  }

  /** The call is one of the input's. */
  predicate Occurs(messages: Messages, call: ToolCall)
  {
    exists j, d :: 0 <= j < |messages| && Asks(messages, j) && 0 <= d < |messages[j].toolCalls| && messages[j].toolCalls[d] == call
  }

  lemma {:induction false} NewAtOccur(messages: Messages, i: nat, c: nat)
    requires Asks(messages, i) && c <= |messages[i].toolCalls|
    ensures forall call :: call in NewAt(messages, i, c) ==> Occurs(messages, call)
    decreases |messages[i].toolCalls| - c
  {
    hide IsAssistant, Trim, Taken;
    if c < |messages[i].toolCalls| {
      NewAtOccur(messages, i, c + 1);
      assert Occurs(messages, messages[i].toolCalls[c]);
    }
  }

  lemma {:induction false} NewCallsOccur(messages: Messages, i: nat, b: nat)
    requires i <= b && forall k :: i <= k < b ==> Asks(messages, k)
    ensures forall call :: call in NewCalls(messages, i, b) ==> Occurs(messages, call)
    decreases b - i
  {
    hide IsAssistant, NewAt, Occurs;
    if i < b {
      NewAtOccur(messages, i, 0);
      NewCallsOccur(messages, i + 1, b);
    }
  }

  /** A result in a block answers one of the calls of its run. */
  lemma BlockAnswers(messages: Messages, i: nat, out: Messages, r: ChatMessage)
    requires i < |messages| && Block(messages, i, out) && r in out && IsTool(r)
    ensures exists call :: Occurs(messages, call) && Answering(messages, call, r)
  {
    hide IsTool, IsAssistant, Answering, NewCalls, Prose, RunEnd, Occurs;
    var k :| 0 <= k < |out| && out[k] == r;
    GroupNotTool(messages[i]);
    SameRole(messages[i], out[0]);
    assert k > 0;
    var calls := NewCalls(messages, i, RunEnd(messages, i));
    NewCallsOccur(messages, i, RunEnd(messages, i));
    assert calls[k - 1] in calls && Answering(messages, calls[k - 1], out[k - 1 + 1]);
  }

  /**
    Every result in the repaired list is the first one recorded for its ID; where the input
    records none, it is the placeholder of a call with that ID, under the name of the call.
   */
  lemma AnsweredByFirst(messages: Messages, r: ChatMessage)
    requires r in Normalized(messages) && IsTool(r)
    ensures var id := Trim(r.toolCallID);
            || (exists i: nat :: FirstFor(messages, i, id) && r == messages[i])
            || (NoneFor(messages, id) && r.role == "tool" && r.content == UNSETTLED && r.toolCallID == id
                && exists call :: Occurs(messages, call) && Trim(call.id) == id && call.name == r.name)
  {
    hide IsTool, Block, FirstFor, NoneFor, Normalized, Trim, Occurs;
    var blocks := NormalizedClosedForm(messages);
    FlattenMember(blocks, r);
    var i :| 0 <= i < |blocks| && r in blocks[i];
    BlockAnswers(messages, i, blocks[i], r);
    var call :| Occurs(messages, call) && Answering(messages, call, r);
    TrimTight(call.id);
    AnswerCases(messages, call, r);
    if i: nat :| i < |messages| && FirstFor(messages, i, Trim(call.id)) && r == messages[i] {
      FirstHasID(messages, i, Trim(call.id));
    }
  }

  lemma AnswerCases(messages: Messages, call: ToolCall, r: ChatMessage)
    requires Answering(messages, call, r)
    ensures || (exists i: nat :: i < |messages| && FirstFor(messages, i, Trim(call.id)) && r == messages[i])
            || (NoneFor(messages, Trim(call.id))
                && r == ChatMessage("tool", UNSETTLED, call.name, Trim(call.id), [], [], map[], ""))
  {
    hide Trim, IsTool;
  }

  lemma FirstHasID(messages: Messages, i: nat, id: string)
    requires FirstFor(messages, i, id)
    ensures i < |messages| && Trim(messages[i].toolCallID) == id
  {
    hide Trim, IsTool;
  }
}
