/**
  Dropping superseded copies of a complete file read from the model's history: every
  replaced result names a later, identical one that stays.
 */
module ReadDeduplication {
  import opened Wrappers
  import opened Text
  import opened Chat
  import Sets

  type History = seq<ChatMessage>

  /**
    The parsed receipt of a complete read, as far as it is compared: path, content,
    version, size, offset, limit and flags. Reading it out of a result and writing the
    notice that stands in for one are the fields of a Format value.
   */
  datatype ReadKey = ReadKey(
    path: string, content: string, version: string, size: int, offset: int, limit: int, truncated: bool, binary: bool)

  datatype Format = Format(keyOf: string -> Option<ReadKey>, notice: (ReadKey, string) -> string)

  /** A notice is itself no complete read. */
  ghost predicate Sound(format: Format)
  {
    forall key: ReadKey, id: string :: format.keyOf(format.notice(key, id)).None?
  }

  const READ_FILE := "read_file"

  // ---------------------------------------------------------------- trusted results

  /** The names assistant calls give to call IDs, and the IDs that were given two. */
  datatype Names = Names(first: map<string, string>, ambiguous: set<string>)

  function NameCall(names: Names, call: ToolCall): Names
  {
    var id := Trim(call.id);
    if id == "" then names
    else if id in names.first && names.first[id] != call.name
    then names.(ambiguous := names.ambiguous + {id})
    else names.(first := names.first[id := call.name])
  }

  function NameCalls(names: Names, calls: seq<ToolCall>): Names
  {
    if calls == [] then names else NameCall(NameCalls(names, calls[..|calls| - 1]), calls[|calls| - 1])
  }

  function CallNames(messages: History): Names
  {
    if messages == [] then Names(map[], {})
    else
      var before, m := CallNames(messages[..|messages| - 1]), messages[|messages| - 1];
      if m.role == "assistant" then NameCalls(before, m.toolCalls) else before
  }

  method CollectCallNames(messages: History) returns (names: Names)
    ensures names == CallNames(messages)
  {
    names := Names(map[], {});
    for i := 0 to |messages|
      invariant names == CallNames(messages[..i])
    {
      assert messages[..i + 1][..i] == messages[..i];
      if messages[i].role != "assistant" {
        continue;
      }
      var calls := messages[i].toolCalls;
      ghost var before := names;
      for k := 0 to |calls|
        invariant names == NameCalls(before, calls[..k])
      {
        hide Trim;
        assert calls[..k + 1][..k] == calls[..k];
        var id := Trim(calls[k].id);
        if id == "" {
          continue;
        }
        if id in names.first && names.first[id] != calls[k].name {
          names := names.(ambiguous := names.ambiguous + {id});
          continue;
        }
        names := names.(first := names.first[id := calls[k].name]);
      }
      assert calls[..|calls|] == calls;
    }
    assert messages[..|messages|] == messages;
  }

  /** projectEinoAssistantTrustedReadFileResult. */
  predicate Trusted(names: Names, m: ChatMessage)
  {
    var id := Trim(m.toolCallID);
    if id != "" && id in names.ambiguous then false
    else if id != "" && id in names.first then names.first[id] == READ_FILE
    else m.name == READ_FILE
  }

  /** The key of a trusted tool result with a call ID and a complete read in it. */
  function EligibleKey(format: Format, names: Names, m: ChatMessage): Option<ReadKey>
  {
    if m.role != "tool" || !Trusted(names, m) || Trim(m.toolCallID) == "" then None
    else format.keyOf(m.content)
  }

  // ---------------------------------------------------------------- what is replaced

  predicate InGroup(format: Format, names: Names, messages: History, key: ReadKey, i: int)
  {
    0 <= i < |messages| && EligibleKey(format, names, messages[i]) == Some(key)
  }

  /** No two results of the group answer the same call. */
  ghost predicate CallsUnique(format: Format, names: Names, messages: History, key: ReadKey)
  {
    forall i, j :: i < j && InGroup(format, names, messages, key, i) && InGroup(format, names, messages, key, j)
      ==> Trim(messages[i].toolCallID) != Trim(messages[j].toolCallID)
  }

  ghost predicate LastOfGroup(format: Format, names: Names, messages: History, key: ReadKey, i: int)
  {
    && InGroup(format, names, messages, key, i)
    && forall j :: i < j ==> !InGroup(format, names, messages, key, j)
  }

  /** Result `i` is superseded: by the last of its group, if their calls are distinct. */
  ghost predicate Superseded(format: Format, names: Names, messages: History, i: int)
  {
    && 0 <= i < |messages| && EligibleKey(format, names, messages[i]).Some?
    && var key := EligibleKey(format, names, messages[i]).value;
       && !LastOfGroup(format, names, messages, key, i)
       && CallsUnique(format, names, messages, key)
  }

  type Replacements = map<int, string>

  /** `id` is the call that the last of the group of result `i` answers. */
  ghost predicate NamesLast(format: Format, names: Names, messages: History, i: int, id: string)
  {
    && 0 <= i < |messages| && EligibleKey(format, names, messages[i]).Some?
    && var key := EligibleKey(format, names, messages[i]).value;
       forall j :: LastOfGroup(format, names, messages, key, j) ==> messages[j].toolCallID == id
  }

  /** Exactly the superseded results are replaced, each naming the call of its group's last. */
  ghost predicate Replaces(format: Format, names: Names, messages: History, duplicates: Replacements)
  {
    && (forall i :: i in duplicates <==> Superseded(format, names, messages, i))
    && (forall i :: i in duplicates ==> NamesLast(format, names, messages, i, duplicates[i]))
  }

  // ---------------------------------------------------------------- the grouping loop

  datatype Group = Group(indices: seq<int>, latestCallID: string, callIDs: set<string>, unique: bool)

  const EMPTY_GROUP := Group([], "", {}, true)

  function Grown(g: Group, m: ChatMessage, i: int): Group
  {
    var id := Trim(m.toolCallID);
    Group(g.indices + [i], m.toolCallID, g.callIDs + {id}, g.unique && id !in g.callIDs)
  }

  /** The group of a key after all the messages. */
  function GroupOf(format: Format, names: Names, messages: History, key: ReadKey): Group
  {
    if messages == [] then EMPTY_GROUP
    else
      var before, m := GroupOf(format, names, messages[..|messages| - 1], key), messages[|messages| - 1];
      if EligibleKey(format, names, m) == Some(key) then Grown(before, m, |messages| - 1) else before
  }

  lemma GroupStep(format: Format, names: Names, messages: History, n: nat, key: ReadKey)
    requires n < |messages|
    ensures GroupOf(format, names, messages[..n + 1], key)
         == var before := GroupOf(format, names, messages[..n], key);
            if EligibleKey(format, names, messages[n]) == Some(key) then Grown(before, messages[n], n) else before
  {
    hide EligibleKey, Grown;
    assert messages[..n + 1][..n] == messages[..n];
  }

  type Groups = map<ReadKey, Group>

  /** The map holds the groups with members, as they are after `messages`. */
  ghost predicate Holds(format: Format, names: Names, messages: History, groups: Groups)
  {
    forall key :: GroupOf(format, names, messages, key) == if key in groups then groups[key] else EMPTY_GROUP
  }

  method GroupResults(format: Format, names: Names, messages: History) returns (groups: Groups)
    ensures Holds(format, names, messages, groups)
    ensures forall key :: key in groups ==> groups[key] != EMPTY_GROUP
  {
    groups := map[];
    for index := 0 to |messages|
      invariant Holds(format, names, messages[..index], groups)
      invariant forall key :: key in groups ==> groups[key] != EMPTY_GROUP
    {
      hide GroupOf, Grown, EligibleKey;
      var m := messages[index];
      ghost var before := groups;
      forall key
        ensures GroupOf(format, names, messages[..index + 1], key)
             == var was := GroupOf(format, names, messages[..index], key);
                if EligibleKey(format, names, m) == Some(key) then Grown(was, m, index) else was
      {
        GroupStep(format, names, messages, index, key);
      }
      match EligibleKey(format, names, m)
      case None =>
      case Some(key) =>
        var g := if key in groups then groups[key] else EMPTY_GROUP;
        GrownIsNotEmpty(g, m, index);
        groups := groups[key := Grown(g, m, index)];
    }
    assert messages[..|messages|] == messages;
  }

  lemma GrownIsNotEmpty(g: Group, m: ChatMessage, i: int)
    ensures Grown(g, m, i) != EMPTY_GROUP
  {
    hide Trim;
    assert |Grown(g, m, i).indices| > 0;
  }

  // ---------------------------------------------------------------- what a group holds

  lemma {:induction false} Members(format: Format, names: Names, messages: History, key: ReadKey)
    ensures forall i :: i in GroupOf(format, names, messages, key).indices <==> InGroup(format, names, messages, key, i)
  {
    hide EligibleKey, Trim;
    if messages != [] {
      var init := messages[..|messages| - 1];
      Members(format, names, init, key);
      forall i
        ensures InGroup(format, names, messages, key, i) <==>
                  InGroup(format, names, init, key, i)
                  || (i == |init| && EligibleKey(format, names, messages[|init|]) == Some(key))
      {}
    }
  }

  predicate Rising(s: seq<int>)
  {
    forall k, l :: 0 <= k < l < |s| ==> s[k] < s[l]
  }

  lemma {:induction false} MembersRise(format: Format, names: Names, messages: History, key: ReadKey)
    ensures Rising(GroupOf(format, names, messages, key).indices)
    ensures forall k :: 0 <= k < |GroupOf(format, names, messages, key).indices| ==>
              0 <= GroupOf(format, names, messages, key).indices[k] < |messages|
  {
    hide EligibleKey, Trim;
    if messages != [] {
      MembersRise(format, names, messages[..|messages| - 1], key);
    }
  }

  lemma {:induction false} LatestCall(format: Format, names: Names, messages: History, key: ReadKey)
    ensures var g := GroupOf(format, names, messages, key);
            g.indices != [] ==>
              && 0 <= g.indices[|g.indices| - 1] < |messages|
              && g.latestCallID == messages[g.indices[|g.indices| - 1]].toolCallID
              && Trim(g.latestCallID) != ""
  {
    hide Trim, Trusted;
    if messages != [] {
      LatestCall(format, names, messages[..|messages| - 1], key);
    }
  }

  /** Some member answers the call. */
  ghost predicate Answers(format: Format, names: Names, messages: History, key: ReadKey, id: string)
  {
    exists i :: InGroup(format, names, messages, key, i) && Trim(messages[i].toolCallID) == id
  }

  lemma AnswersStep(format: Format, names: Names, messages: History, key: ReadKey, id: string)
    requires messages != []
    ensures var init, m := messages[..|messages| - 1], messages[|messages| - 1];
            Answers(format, names, messages, key, id) <==>
              Answers(format, names, init, key, id)
              || (EligibleKey(format, names, m) == Some(key) && Trim(m.toolCallID) == id)
  {
    hide EligibleKey, Trim;
    var init, m := messages[..|messages| - 1], messages[|messages| - 1];
    if Answers(format, names, init, key, id) {
      var i :| InGroup(format, names, init, key, i) && Trim(init[i].toolCallID) == id;
      assert InGroup(format, names, messages, key, i) && messages[i] == init[i];
    }
    if EligibleKey(format, names, m) == Some(key) && Trim(m.toolCallID) == id {
      assert InGroup(format, names, messages, key, |init|);
    }
    if Answers(format, names, messages, key, id) {
      var i :| InGroup(format, names, messages, key, i) && Trim(messages[i].toolCallID) == id;
      if i < |init| {
        assert InGroup(format, names, init, key, i) && messages[i] == init[i];
      }
    }
  }

  lemma {:induction false} CallsAnswered(format: Format, names: Names, messages: History, key: ReadKey, id: string)
    ensures id in GroupOf(format, names, messages, key).callIDs <==> Answers(format, names, messages, key, id)
  {
    hide EligibleKey, Trim, Answers;
    if messages == [] {
      NothingAnswers(format, names, key, id);
    } else {
      CallsAnswered(format, names, messages[..|messages| - 1], key, id);
      AnswersStep(format, names, messages, key, id);
    }
  }

  lemma NothingAnswers(format: Format, names: Names, key: ReadKey, id: string)
    ensures !Answers(format, names, [], key, id)
  {}

  lemma UniqueStep(format: Format, names: Names, messages: History, key: ReadKey)
    requires messages != []
    ensures var init, m := messages[..|messages| - 1], messages[|messages| - 1];
            CallsUnique(format, names, messages, key) <==>
              && CallsUnique(format, names, init, key)
              && !(EligibleKey(format, names, m) == Some(key) && Answers(format, names, init, key, Trim(m.toolCallID)))
  {
    hide EligibleKey, Trim;
    var init, m := messages[..|messages| - 1], messages[|messages| - 1];
    forall i
      ensures InGroup(format, names, messages, key, i) <==>
                InGroup(format, names, init, key, i)
                || (i == |init| && EligibleKey(format, names, m) == Some(key))
    {}
    if EligibleKey(format, names, m) == Some(key) && Answers(format, names, init, key, Trim(m.toolCallID)) {
      var i :| InGroup(format, names, init, key, i) && Trim(init[i].toolCallID) == Trim(m.toolCallID);
      assert InGroup(format, names, messages, key, i) && InGroup(format, names, messages, key, |init|);
    }
  }

  lemma {:induction false} UniqueMeans(format: Format, names: Names, messages: History, key: ReadKey)
    ensures GroupOf(format, names, messages, key).unique <==> CallsUnique(format, names, messages, key)
  {
    hide EligibleKey, Trim, CallsUnique;
    if messages == [] {
      NothingClashes(format, names, key);
    } else {
      var init, m := messages[..|messages| - 1], messages[|messages| - 1];
      UniqueMeans(format, names, init, key);
      UniqueStep(format, names, messages, key);
      CallsAnswered(format, names, init, key, Trim(m.toolCallID));
    }
  }

  lemma NothingClashes(format: Format, names: Names, key: ReadKey)
    ensures CallsUnique(format, names, [], key)
  {
    hide EligibleKey, Trim;
  }

  lemma RisingLast(s: seq<int>, i: int)
    requires Rising(s) && s != []
    ensures i in s[..|s| - 1] <==> i in s && i != s[|s| - 1]
    ensures i in s ==> i <= s[|s| - 1]
  {
    assert s == s[..|s| - 1] + [s[|s| - 1]];
  }

  /** The last index of a group is its last member; the others are those a later one supersedes. */
  lemma GroupMeaning(format: Format, names: Names, messages: History, key: ReadKey, i: int)
    requires GroupOf(format, names, messages, key).indices != []
    ensures var s := GroupOf(format, names, messages, key).indices;
            && (LastOfGroup(format, names, messages, key, i) <==> i == s[|s| - 1])
            && (i in s[..|s| - 1] <==>
                  InGroup(format, names, messages, key, i) && !LastOfGroup(format, names, messages, key, i))
  {
    hide EligibleKey, GroupOf, InGroup;
    var s := GroupOf(format, names, messages, key).indices;
    var last := s[|s| - 1];
    Members(format, names, messages, key);
    MembersRise(format, names, messages, key);
    RisingLast(s, i);
    forall j | last < j
      ensures !InGroup(format, names, messages, key, j)
    {
      RisingLast(s, j);
    }
    assert last in s;
  }

  // ---------------------------------------------------------------- the replacements of a group

  /** What is replaced in the groups of the given keys, and nothing else. */
  ghost predicate Settled(format: Format, names: Names, messages: History, keys: set<ReadKey>, duplicates: Replacements)
  {
    && (forall i :: i in duplicates <==> SupersededIn(format, names, messages, keys, i))
    && (forall i :: i in duplicates ==> NamesLast(format, names, messages, i, duplicates[i]))
  }

  ghost predicate SupersededIn(format: Format, names: Names, messages: History, keys: set<ReadKey>, i: int)
  {
    Superseded(format, names, messages, i) && EligibleKey(format, names, messages[i]).value in keys
  }

  /** All the given results, replaced by a notice that names `id`. */
  function Marks(indices: seq<int>, id: string): Replacements
  {
    if indices == [] then map[] else Marks(indices[..|indices| - 1], id)[indices[|indices| - 1] := id]
  }

  lemma {:induction false} MarksAre(indices: seq<int>, id: string, i: int)
    ensures i in Marks(indices, id) <==> i in indices
    ensures i in Marks(indices, id) ==> Marks(indices, id)[i] == id
  {
    if indices != [] {
      MarksAre(indices[..|indices| - 1], id, i);
    }
  }

  lemma MarkOne(format: Format, names: Names, messages: History, key: ReadKey, i: int)
    ensures var g := GroupOf(format, names, messages, key);
            SupersededIn(format, names, messages, {key}, i) <==>
              |g.indices| >= 2 && g.unique && Trim(g.latestCallID) != "" && i in g.indices[..|g.indices| - 1]
    ensures var g := GroupOf(format, names, messages, key);
            SupersededIn(format, names, messages, {key}, i) ==> NamesLast(format, names, messages, i, g.latestCallID)
  {
    hide EligibleKey, GroupOf, CallsUnique, Trim;
    var g := GroupOf(format, names, messages, key);
    Members(format, names, messages, key);
    UniqueMeans(format, names, messages, key);
    LatestCall(format, names, messages, key);
    if g.indices != [] {
      GroupMeaning(format, names, messages, key, i);
      GroupMeaning(format, names, messages, key, g.indices[|g.indices| - 1]);
      hide LastOfGroup;
      assert |g.indices| < 2 ==> g.indices[..|g.indices| - 1] == [];
    }
  }

  /** Every superseded member of one group, and none of any other, is marked. */
  lemma MarkGroup(
    format: Format, names: Names, messages: History, keys: set<ReadKey>, key: ReadKey,
    before: Replacements, after: Replacements)
    requires key !in keys && Settled(format, names, messages, keys, before)
    requires var g := GroupOf(format, names, messages, key);
             if |g.indices| < 2 || !g.unique || Trim(g.latestCallID) == "" then after == before
             else after == before + Marks(g.indices[..|g.indices| - 1], g.latestCallID)
    ensures Settled(format, names, messages, keys + {key}, after)
  {
    hide Trim, EligibleKey, Superseded, NamesLast, GroupOf, Marks;
    forall i
      ensures SupersededIn(format, names, messages, keys + {key}, i) <==>
                SupersededIn(format, names, messages, keys, i) || SupersededIn(format, names, messages, {key}, i)
      ensures !(SupersededIn(format, names, messages, keys, i) && SupersededIn(format, names, messages, {key}, i))
    {}
    forall i
      ensures i in after <==> SupersededIn(format, names, messages, keys + {key}, i)
      ensures i in after ==> NamesLast(format, names, messages, i, after[i])
    {
      MarkOne(format, names, messages, key, i);
      var g := GroupOf(format, names, messages, key);
      if |g.indices| >= 2 {
        MarksAre(g.indices[..|g.indices| - 1], g.latestCallID, i);
      }
    }
  }

  /** projectEinoAssistantDuplicateCompleteReadFileResultsWithCalls. */
  method DuplicateResults(format: Format, names: Names, messages: History) returns (duplicates: Replacements)
    ensures Replaces(format, names, messages, duplicates)
  {
    hide Settled, GroupOf, Trim, Replaces, Holds, Marks;
    var groups := GroupResults(format, names, messages);
    duplicates := map[];
    var left := groups.Keys;
    NothingSettled(format, names, messages, groups.Keys - left);
    while left != {}
      invariant left <= groups.Keys
      invariant Settled(format, names, messages, groups.Keys - left, duplicates)
      decreases |left|
    {
      ghost var member := Sets.Pick(left);
      var key :| key in left;
      ghost var before := duplicates;
      duplicates := MarkMembers(groups[key], duplicates);
      HoldsAt(format, names, messages, groups, key);
      MarkGroup(format, names, messages, groups.Keys - left, key, before, duplicates);
      Sets.SizeWithout(left, key);
      assert groups.Keys - left + {key} == groups.Keys - (left - {key});
      left := left - {key};
    }
    SettledAll(format, names, messages, groups, duplicates);
  }

  lemma HoldsAt(format: Format, names: Names, messages: History, groups: Groups, key: ReadKey)
    requires Holds(format, names, messages, groups) && key in groups
    ensures groups[key] == GroupOf(format, names, messages, key)
  {
    hide GroupOf;
  }

  /** The inner loop: all but the last index of a usable group. */
  method MarkMembers(group: Group, before: Replacements) returns (duplicates: Replacements)
    ensures if |group.indices| < 2 || !group.unique || Trim(group.latestCallID) == "" then duplicates == before
            else duplicates == before + Marks(group.indices[..|group.indices| - 1], group.latestCallID)
  {
    hide Trim;
    duplicates := before;
    if |group.indices| < 2 || !group.unique || Trim(group.latestCallID) == "" {
      return;
    }
    for k := 0 to |group.indices| - 1
      invariant duplicates == before + Marks(group.indices[..k], group.latestCallID)
    {
      assert group.indices[..k + 1][..k] == group.indices[..k];
      duplicates := duplicates[group.indices[k] := group.latestCallID];
    }
  }

  lemma NothingSettled(format: Format, names: Names, messages: History, keys: set<ReadKey>)
    requires keys == {}
    ensures Settled(format, names, messages, keys, map[])
  {
    hide EligibleKey, Superseded;
  }

  lemma SettledAll(format: Format, names: Names, messages: History, groups: Groups, duplicates: Replacements)
    requires Holds(format, names, messages, groups)
    requires Settled(format, names, messages, groups.Keys - {}, duplicates)
    ensures Replaces(format, names, messages, duplicates)
  {
    hide EligibleKey, LastOfGroup, CallsUnique, GroupOf, NamesLast;
    forall i | Superseded(format, names, messages, i)
      ensures EligibleKey(format, names, messages[i]).value in groups.Keys - {}
    {
      var key := EligibleKey(format, names, messages[i]).value;
      assert InGroup(format, names, messages, key, i);
      Members(format, names, messages, key);
    }
  }

  // ---------------------------------------------------------------- nothing is lost

  /** Position `i` holds a superseded result whose replacement names a later copy that stays. */
  lemma ReplacedNamesKept(format: Format, names: Names, messages: History, duplicates: Replacements, i: int)
    requires Replaces(format, names, messages, duplicates) && i in duplicates
    ensures exists j :: i < j < |messages| && j !in duplicates && duplicates[i] == messages[j].toolCallID
              && messages[j].role == "tool"
              && format.keyOf(messages[j].content).Some? && format.keyOf(messages[j].content) == format.keyOf(messages[i].content)
  {
    hide Trim, Trusted, CallsUnique;
    var key := EligibleKey(format, names, messages[i]).value;
    Members(format, names, messages, key);
    assert InGroup(format, names, messages, key, i);
    var s := GroupOf(format, names, messages, key).indices;
    var last := s[|s| - 1];
    GroupMeaning(format, names, messages, key, i);
    GroupMeaning(format, names, messages, key, last);
    MembersRise(format, names, messages, key);
    RisingLast(s, i);
    hide GroupOf;
    assert LastOfGroup(format, names, messages, key, last);
  }

  /** The last copy in every group is kept, and groups with ambiguous calls are kept whole. */
  lemma KeptCopies(format: Format, names: Names, messages: History, duplicates: Replacements, key: ReadKey, i: int)
    requires Replaces(format, names, messages, duplicates) && InGroup(format, names, messages, key, i)
    ensures LastOfGroup(format, names, messages, key, i) ==> i !in duplicates
    ensures !CallsUnique(format, names, messages, key) ==> i !in duplicates
    ensures CallsUnique(format, names, messages, key) && !LastOfGroup(format, names, messages, key, i) ==> i in duplicates
  {
    hide EligibleKey, CallsUnique, LastOfGroup, NamesLast;
  }

  /** The history with its superseded results replaced by notices; nothing else is touched. */
  function Rewritten(format: Format, messages: History, duplicates: Replacements): (r: History)
    ensures |r| == |messages|
    ensures forall i :: 0 <= i < |r| ==> r[i] == messages[i].(content := r[i].content)
    ensures forall i :: 0 <= i < |r| && i !in duplicates ==> r[i] == messages[i]
  {
    if messages == [] then []
    else
      var i := |messages| - 1;
      Rewritten(format, messages[..i], duplicates)
        + [if i in duplicates && format.keyOf(messages[i].content).Some?
           then messages[i].(content := format.notice(format.keyOf(messages[i].content).value, duplicates[i]))
           else messages[i]]
  }

  lemma {:induction false} RewrittenAt(format: Format, names: Names, messages: History, duplicates: Replacements, i: int)
    requires Sound(format) && 0 <= i < |messages| && (i in duplicates ==> format.keyOf(messages[i].content).Some?)
    ensures EligibleKey(format, names, Rewritten(format, messages, duplicates)[i])
         == if i in duplicates then None else EligibleKey(format, names, messages[i])
    decreases |messages|
  {
    if i < |messages| - 1 {
      RewrittenAt(format, names, messages[..|messages| - 1], duplicates, i);
    }
  }

  lemma {:induction false} RewrittenNames(messages: History, other: History)
    requires |other| == |messages| && forall i :: 0 <= i < |other| ==> other[i] == messages[i].(content := other[i].content)
    ensures CallNames(other) == CallNames(messages)
  {
    hide NameCalls;
    if messages != [] {
      RewrittenNames(messages[..|messages| - 1], other[..|messages| - 1]);
    }
  }

  /** A second pass over the rewritten history finds nothing more to replace. */
  lemma SecondPassReplacesNothing(
    format: Format, messages: History, duplicates: Replacements, second: Replacements)
    requires Sound(format) && Replaces(format, CallNames(messages), messages, duplicates)
    requires var next := Rewritten(format, messages, duplicates); Replaces(format, CallNames(next), next, second)
    ensures second == map[]
  {
    hide EligibleKey, Trim, CallNames, NamesLast, Rewritten;
    var names, next := CallNames(messages), Rewritten(format, messages, duplicates);
    RewrittenNames(messages, next);
    forall i
      ensures i !in second
    {
      if 0 <= i < |messages| && Superseded(format, names, next, i) {
        OneCopyLeft(format, names, messages, duplicates, i);
        assert false;
      }
    }
  }

  lemma GroupAfter(format: Format, names: Names, messages: History, duplicates: Replacements, key: ReadKey, i: int)
    requires Sound(format) && Replaces(format, names, messages, duplicates)
    ensures InGroup(format, names, Rewritten(format, messages, duplicates), key, i)
       <==> InGroup(format, names, messages, key, i) && i !in duplicates
  {
    hide Trim, Trusted, CallsUnique, LastOfGroup, NamesLast, Rewritten;
    if 0 <= i < |messages| {
      RewrittenAt(format, names, messages, duplicates, i);
    }
  }

  lemma OneCopyLeft(format: Format, names: Names, messages: History, duplicates: Replacements, i: int)
    requires Sound(format) && Replaces(format, names, messages, duplicates)
    ensures !Superseded(format, names, Rewritten(format, messages, duplicates), i)
  {
    hide EligibleKey, Trim, NamesLast, Rewritten;
    var next := Rewritten(format, messages, duplicates);
    if Superseded(format, names, next, i) {
      var key := EligibleKey(format, names, next[i]).value;
      assert InGroup(format, names, next, key, i);
      var j :| i < j && InGroup(format, names, next, key, j);
      GroupAfter(format, names, messages, duplicates, key, i);
      GroupAfter(format, names, messages, duplicates, key, j);
      KeptCopies(format, names, messages, duplicates, key, i);
      assert !LastOfGroup(format, names, messages, key, i);
      var a, b := Clash(format, names, messages, key);
      GroupAfter(format, names, messages, duplicates, key, a);
      GroupAfter(format, names, messages, duplicates, key, b);
      KeptCopies(format, names, messages, duplicates, key, a);
      KeptCopies(format, names, messages, duplicates, key, b);
      SameCalls(format, messages, duplicates, a, b);
      assert false;
    }
  }

  lemma SameCalls(format: Format, messages: History, duplicates: Replacements, a: int, b: int)
    requires 0 <= a < |messages| && 0 <= b < |messages|
    ensures Rewritten(format, messages, duplicates)[a].toolCallID == messages[a].toolCallID
    ensures Rewritten(format, messages, duplicates)[b].toolCallID == messages[b].toolCallID
  {
    hide Rewritten;
  }

  lemma Clash(format: Format, names: Names, messages: History, key: ReadKey) returns (a: int, b: int)
    requires !CallsUnique(format, names, messages, key)
    ensures a < b && InGroup(format, names, messages, key, a) && InGroup(format, names, messages, key, b)
    ensures Trim(messages[a].toolCallID) == Trim(messages[b].toolCallID)
  {
    hide EligibleKey, Trim;
    a, b :| a < b && InGroup(format, names, messages, key, a) && InGroup(format, names, messages, key, b)
      && Trim(messages[a].toolCallID) == Trim(messages[b].toolCallID);
  }

  // ---------------------------------------------------------------- after the bounded rendering

  /**
    What a bounded rendering of tool results keeps of complete reads: a read stays the same
    read, or is no longer complete; only a result that was none may become one. A notice
    stays a notice, and what is rendered is not rendered differently again.
   */
  ghost predicate Renders(format: Format, project: ChatMessage -> string)
  {
    && (forall m: ChatMessage :: KeepsKey(format, project, m))
    && (forall m: ChatMessage, key: ReadKey, id: string ::
          format.keyOf(project(m.(content := format.notice(key, id)))).None?)
    && (forall m: ChatMessage :: project(m.(content := project(m))) == project(m))
  }

  predicate KeepsKey(format: Format, project: ChatMessage -> string, m: ChatMessage)
  {
    || format.keyOf(project(m)).None? || format.keyOf(m.content).None?
    || format.keyOf(project(m)) == format.keyOf(m.content)
  }

  /** The model's history: superseded results replaced, then every tool result rendered. */
  function Payload(format: Format, project: ChatMessage -> string, messages: History, duplicates: Replacements): (r: History)
    ensures |r| == |messages|
    ensures forall i :: 0 <= i < |r| ==> r[i] == messages[i].(content := r[i].content)
  {
    var rewritten := Rewritten(format, messages, duplicates);
    seq(|messages|, i requires 0 <= i < |messages| =>
      if rewritten[i].role == "tool" then rewritten[i].(content := project(rewritten[i])) else rewritten[i])
  }

  /** The key a result has once it is rendered. */
  function ShownKey(format: Format, project: ChatMessage -> string, names: Names, m: ChatMessage): Option<ReadKey>
  {
    EligibleKey(format, names, m.(content := project(m)))
  }

  /** The result is not replaced and shows the key when rendered. */
  ghost predicate Stays(
    format: Format, project: ChatMessage -> string, names: Names, messages: History, key: ReadKey, i: int)
  {
    && 0 <= i < |messages| && ShownKey(format, project, names, messages[i]) == Some(key)
    && !Superseded(format, names, messages, i)
  }

  /** The results that stay with the key answer different calls. */
  ghost predicate StayApart(format: Format, project: ChatMessage -> string, names: Names, messages: History, key: ReadKey)
  {
    forall i, j :: i < j && Stays(format, project, names, messages, key, i) && Stays(format, project, names, messages, key, j)
      ==> Trim(messages[i].toolCallID) != Trim(messages[j].toolCallID)
  }

  /** A result that stays although a later one shows the same key, all of them from different calls. */
  ghost predicate Overtaken(format: Format, project: ChatMessage -> string, names: Names, messages: History, i: int)
  {
    && 0 <= i < |messages| && ShownKey(format, project, names, messages[i]).Some?
    && var key := ShownKey(format, project, names, messages[i]).value;
       && Stays(format, project, names, messages, key, i)
       && (exists j :: i < j && Stays(format, project, names, messages, key, j))
       && StayApart(format, project, names, messages, key)
  }

  /** A result that had no key before it was rendered stays with the key. */
  ghost predicate Completed(format: Format, project: ChatMessage -> string, names: Names, messages: History, key: ReadKey)
  {
    exists k :: Stays(format, project, names, messages, key, k) && EligibleKey(format, names, messages[k]).None?
  }

  /** Why a result can be overtaken: its group gained a read by the rendering, or had been left whole. */
  ghost predicate Reopened(format: Format, project: ChatMessage -> string, names: Names, messages: History, i: int)
  {
    && 0 <= i < |messages| && ShownKey(format, project, names, messages[i]).Some?
    && var key := ShownKey(format, project, names, messages[i]).value;
       Completed(format, project, names, messages, key) || !CallsUnique(format, names, messages, key)
  }

  lemma SameTrust(names: Names, a: ChatMessage, b: ChatMessage)
    requires b == a.(content := b.content)
    ensures Trusted(names, b) <==> Trusted(names, a)
  {
    hide Trim;
  }

  lemma KeylessStays(format: Format, names: Names, m: ChatMessage)
    requires format.keyOf(m.content).None?
    ensures EligibleKey(format, names, m).None?
  {
    hide Trim, Trusted;
  }

  lemma RewrittenIs(format: Format, messages: History, duplicates: Replacements, i: int)
    requires 0 <= i < |messages|
    ensures Rewritten(format, messages, duplicates)[i]
         == var key := format.keyOf(messages[i].content);
            if i in duplicates && key.Some? then messages[i].(content := format.notice(key.value, duplicates[i]))
            else messages[i]
    decreases |messages|
  {
    if i < |messages| - 1 {
      RewrittenIs(format, messages[..|messages| - 1], duplicates, i);
    }
  }

  lemma SupersededIsTool(format: Format, names: Names, messages: History, i: int)
    requires Superseded(format, names, messages, i)
    ensures 0 <= i < |messages| && messages[i].role == "tool" && format.keyOf(messages[i].content).Some?
  {
    hide Trim, Trusted, LastOfGroup, CallsUnique;
  }

  /** The payload, one message at a time. */
  lemma PayloadAt(
    format: Format, project: ChatMessage -> string, names: Names, messages: History, duplicates: Replacements, i: int)
    requires Replaces(format, names, messages, duplicates) && 0 <= i < |messages|
    ensures var m, p := messages[i], Payload(format, project, messages, duplicates)[i];
            if i in duplicates then
              && format.keyOf(m.content).Some?
              && p.content == project(m.(content := format.notice(format.keyOf(m.content).value, duplicates[i])))
            else p == if m.role == "tool" then m.(content := project(m)) else m
    ensures i in duplicates <==> Superseded(format, names, messages, i)
  {
    hide EligibleKey, Superseded, NamesLast, Rewritten;
    if i in duplicates {
      SupersededIsTool(format, names, messages, i);
      RewrittenIs(format, messages, duplicates, i);
    }
  }

  /** The groups of the payload: what stays, by the key it shows. */
  lemma PayloadGroup(
    format: Format, project: ChatMessage -> string, names: Names, messages: History, duplicates: Replacements,
    key: ReadKey, i: int)
    requires Renders(format, project) && Replaces(format, names, messages, duplicates)
    ensures InGroup(format, names, Payload(format, project, messages, duplicates), key, i)
       <==> Stays(format, project, names, messages, key, i)
  {
    hide Trusted, Trim, Superseded, NamesLast, Payload, Replaces;
    if 0 <= i < |messages| {
      PayloadAt(format, project, names, messages, duplicates, i);
      var p := Payload(format, project, messages, duplicates)[i];
      if i in duplicates {
        KeylessStays(format, names, p);
      }
    }
  }

  /** With calls that were distinct and reads that were complete before, nothing is left to replace. */
  lemma OvertakenIsNew(format: Format, project: ChatMessage -> string, names: Names, messages: History, i: int)
    requires Renders(format, project) && Overtaken(format, project, names, messages, i)
    ensures Reopened(format, project, names, messages, i)
  {
    hide Trim, Trusted, CallsUnique, StayApart;
    var key := ShownKey(format, project, names, messages[i]).value;
    var j :| i < j && Stays(format, project, names, messages, key, j);
    if !Completed(format, project, names, messages, key) {
      StaysWithKey(format, project, names, messages, key, i);
      StaysWithKey(format, project, names, messages, key, j);
      hide Stays, EligibleKey;
      assert !LastOfGroup(format, names, messages, key, i);
    }
  }

  lemma StaysWithKey(
    format: Format, project: ChatMessage -> string, names: Names, messages: History, key: ReadKey, i: int)
    requires Renders(format, project) && Stays(format, project, names, messages, key, i)
    requires !Completed(format, project, names, messages, key)
    ensures InGroup(format, names, messages, key, i) && !Superseded(format, names, messages, i)
  {
    hide Trim, Superseded;
    assert EligibleKey(format, names, messages[i]).Some?;
    assert KeepsKey(format, project, messages[i]);
    hide Trusted;
  }

  /**
    Exactly what a second pass over the rendered history replaces: the results that stay
    although a later one shows the same key, when all that show it answered different
    calls. One of them then was no complete read before it was rendered, or two results
    with that key had answered the same call, so the first pass left the group whole.
   */
  lemma SecondPassExactly(
    format: Format, project: ChatMessage -> string, messages: History, duplicates: Replacements, second: Replacements)
    requires Renders(format, project) && Replaces(format, CallNames(messages), messages, duplicates)
    requires var next := Payload(format, project, messages, duplicates); Replaces(format, CallNames(next), next, second)
    ensures forall i :: i in second <==> Overtaken(format, project, CallNames(messages), messages, i)
    ensures forall i :: i in second ==> Reopened(format, project, CallNames(messages), messages, i)
  {
    hide Trim, CallNames, NamesLast, Payload, Overtaken, Superseded, Renders, Reopened;
    var names, next := CallNames(messages), Payload(format, project, messages, duplicates);
    RewrittenNames(messages, next);
    forall i
      ensures i in second <==> Overtaken(format, project, names, messages, i)
    {
      SupersededAgain(format, project, names, messages, duplicates, i);
    }
    forall i | i in second
      ensures Reopened(format, project, names, messages, i)
    {
      OvertakenIsNew(format, project, names, messages, i);
    }
  }

  lemma SupersededAgain(
    format: Format, project: ChatMessage -> string, names: Names, messages: History, duplicates: Replacements, i: int)
    requires Renders(format, project) && Replaces(format, names, messages, duplicates)
    ensures Superseded(format, names, Payload(format, project, messages, duplicates), i)
       <==> Overtaken(format, project, names, messages, i)
  {
    hide Trim, Payload, Stays, Renders, Replaces, InGroup, EligibleKey, ShownKey;
    var next := Payload(format, project, messages, duplicates);
    forall key, k
      ensures InGroup(format, names, next, key, k) <==> Stays(format, project, names, messages, key, k)
    {
      PayloadGroup(format, project, names, messages, duplicates, key, k);
    }
    GroupKeys(format, project, names, messages, next, i);
    forall k | 0 <= k < |next|
      ensures next[k].toolCallID == messages[k].toolCallID
    {}
    if 0 <= i < |messages| && EligibleKey(format, names, next[i]).Some? {
      SameCallsUnique(format, project, names, messages, next, EligibleKey(format, names, next[i]).value);
    }
    hide CallsUnique, StayApart;
  }

  /** The key of position `i` in the payload is the key it stays with. */
  lemma GroupKeys(format: Format, project: ChatMessage -> string, names: Names, messages: History, next: History, i: int)
    requires |next| == |messages|
    requires forall key :: InGroup(format, names, next, key, i) <==> Stays(format, project, names, messages, key, i)
    ensures 0 <= i < |next| && EligibleKey(format, names, next[i]).Some? ==>
              && ShownKey(format, project, names, messages[i]) == EligibleKey(format, names, next[i])
              && Stays(format, project, names, messages, EligibleKey(format, names, next[i]).value, i)
    ensures forall key :: Stays(format, project, names, messages, key, i) ==>
              && 0 <= i < |next| && EligibleKey(format, names, next[i]) == Some(key)
              && ShownKey(format, project, names, messages[i]) == Some(key)
  {
    hide EligibleKey, ShownKey, Superseded;
    if 0 <= i < |next| && EligibleKey(format, names, next[i]).Some? {
      assert InGroup(format, names, next, EligibleKey(format, names, next[i]).value, i);
    }
    forall key | Stays(format, project, names, messages, key, i)
      ensures 0 <= i < |next| && EligibleKey(format, names, next[i]) == Some(key)
    {
      assert InGroup(format, names, next, key, i);
    }
  }

  lemma SameCallsUnique(
    format: Format, project: ChatMessage -> string, names: Names, messages: History, next: History, key: ReadKey)
    requires |next| == |messages| && forall k :: 0 <= k < |next| ==> next[k].toolCallID == messages[k].toolCallID
    requires forall k :: InGroup(format, names, next, key, k) <==> Stays(format, project, names, messages, key, k)
    ensures CallsUnique(format, names, next, key) <==> StayApart(format, project, names, messages, key)
  {
    hide Trim, EligibleKey, ShownKey, Superseded;
    StaysInRange(format, project, names, messages, key);
    hide InGroup, Stays;
  }

  lemma StaysInRange(format: Format, project: ChatMessage -> string, names: Names, messages: History, key: ReadKey)
    ensures forall k :: Stays(format, project, names, messages, key, k) ==> 0 <= k < |messages|
  {
    hide ShownKey, Superseded;
  }

  /** Tool results with a call ID answer different calls, as the pairing repair leaves them. */
  predicate DistinctCalls(messages: History)
  {
    forall i, j :: 0 <= i < j < |messages| && Answering(messages[i]) && Answering(messages[j])
      ==> Trim(messages[i].toolCallID) != Trim(messages[j].toolCallID)
  }

  predicate Answering(m: ChatMessage) { m.role == "tool" && Trim(m.toolCallID) != "" }

  /** Result `i` was no complete read before it was rendered, and then shows the key of another that stays. */
  ghost predicate Joins(
    format: Format, project: ChatMessage -> string, names: Names, messages: History, i: int, j: int)
  {
    && i != j && 0 <= i < |messages| && EligibleKey(format, names, messages[i]).None?
    && ShownKey(format, project, names, messages[i]).Some?
    && var key := ShownKey(format, project, names, messages[i]).value;
       Stays(format, project, names, messages, key, i) && Stays(format, project, names, messages, key, j)
  }

  lemma StaysIsTool(format: Format, project: ChatMessage -> string, names: Names, messages: History, key: ReadKey, i: int)
    requires Stays(format, project, names, messages, key, i)
    ensures 0 <= i < |messages| && Answering(messages[i]) && ShownKey(format, project, names, messages[i]) == Some(key)
  {
    hide Trim, Trusted, Superseded;
  }

  lemma DistinctApart(format: Format, project: ChatMessage -> string, names: Names, messages: History, key: ReadKey)
    requires DistinctCalls(messages)
    ensures StayApart(format, project, names, messages, key) && CallsUnique(format, names, messages, key)
  {
    forall i | Stays(format, project, names, messages, key, i)
      ensures 0 <= i < |messages| && Answering(messages[i])
    {
      StaysIsTool(format, project, names, messages, key, i);
    }
    hide Trim, Trusted, Stays;
  }

  lemma JoinIsOvertaken(
    format: Format, project: ChatMessage -> string, names: Names, messages: History, i: int, j: int)
    requires DistinctCalls(messages) && Joins(format, project, names, messages, i, j)
    ensures Overtaken(format, project, names, messages, if i < j then i else j)
  {
    var key := ShownKey(format, project, names, messages[i]).value;
    DistinctApart(format, project, names, messages, key);
    StaysIsTool(format, project, names, messages, key, j);
    hide Trim, Stays, StayApart, ShownKey, EligibleKey;
  }

  lemma OvertakenIsJoined(format: Format, project: ChatMessage -> string, names: Names, messages: History, i: int)
    requires Renders(format, project) && DistinctCalls(messages) && Overtaken(format, project, names, messages, i)
    ensures exists k, j :: Joins(format, project, names, messages, k, j)
  {
    var key := ShownKey(format, project, names, messages[i]).value;
    DistinctApart(format, project, names, messages, key);
    OvertakenIsNew(format, project, names, messages, i);
    hide Renders, StayApart, CallsUnique, DistinctCalls;
    var j :| i < j && Stays(format, project, names, messages, key, j);
    var k :| Stays(format, project, names, messages, key, k) && EligibleKey(format, names, messages[k]).None?;
    StaysIsTool(format, project, names, messages, key, k);
    hide Stays, ShownKey, EligibleKey;
    assert Joins(format, project, names, messages, k, if k == i then j else i);
  }

  /**
    When the calls are distinct, a second pass replaces something if and only if some
    result became a complete read only by being rendered, and shows the same key as another
    that stays.
   */
  lemma SecondPassNeedsCompletion(
    format: Format, project: ChatMessage -> string, messages: History, duplicates: Replacements, second: Replacements)
    requires Renders(format, project) && DistinctCalls(messages)
    requires Replaces(format, CallNames(messages), messages, duplicates)
    requires var next := Payload(format, project, messages, duplicates); Replaces(format, CallNames(next), next, second)
    ensures second != map[] <==> exists i, j :: Joins(format, project, CallNames(messages), messages, i, j)
  {
    hide CallNames, Payload, Overtaken, Renders, Reopened, Replaces, Joins, DistinctCalls;
    var names := CallNames(messages);
    SecondPassExactly(format, project, messages, duplicates, second);
    if second != map[] {
      var i := Sets.Pick(second.Keys);
      assert i in second;
      OvertakenIsJoined(format, project, names, messages, i);
    }
    if i, j :| Joins(format, project, names, messages, i, j) {
      JoinIsOvertaken(format, project, names, messages, i, j);
      assert (if i < j then i else j) in second;
    }
  }

  /** Projecting the history is idempotent exactly when no result is overtaken. */
  lemma PayloadIdempotentExactly(
    format: Format, project: ChatMessage -> string, messages: History, duplicates: Replacements, second: Replacements)
    requires Renders(format, project) && Replaces(format, CallNames(messages), messages, duplicates)
    requires var next := Payload(format, project, messages, duplicates); Replaces(format, CallNames(next), next, second)
    ensures var next := Payload(format, project, messages, duplicates);
            Payload(format, project, next, second) == next <==>
              forall i :: 0 <= i < |messages| ==> !Overtaken(format, project, CallNames(messages), messages, i)
  {
    hide CallNames, Rewritten, Payload, Overtaken, Superseded, Completed, CallsUnique, ShownKey, Replaces;
    var next := Payload(format, project, messages, duplicates);
    var again := Payload(format, project, next, second);
    SecondPassExactly(format, project, messages, duplicates, second);
    forall i | 0 <= i < |messages|
      ensures again[i] == next[i] <==> i !in second
    {
      PayloadAgain(format, project, messages, duplicates, second, i);
    }
    if forall i :: 0 <= i < |messages| ==> i !in second {
      assert again == next;
    }
  }

  lemma PayloadUnchanged(
    format: Format, project: ChatMessage -> string, messages: History, duplicates: Replacements, second: Replacements)
    requires Renders(format, project) && Replaces(format, CallNames(messages), messages, duplicates)
    requires var next := Payload(format, project, messages, duplicates); Replaces(format, CallNames(next), next, second)
    ensures var next := Payload(format, project, messages, duplicates);
            Payload(format, project, next, second) == next <==> second == map[]
  {
    hide CallNames, Payload, Overtaken, Reopened, Renders, Replaces;
    PayloadIdempotentExactly(format, project, messages, duplicates, second);
    SecondPassExactly(format, project, messages, duplicates, second);
    if second != map[] {
      var i := Sets.Pick(second.Keys);
      assert i in second;
      OvertakenInRange(format, project, CallNames(messages), messages, i);
    }
  }

  lemma OvertakenInRange(format: Format, project: ChatMessage -> string, names: Names, messages: History, i: int)
    requires Overtaken(format, project, names, messages, i)
    ensures 0 <= i < |messages|
  {
    hide ShownKey, Stays, StayApart;
  }

  lemma PayloadAgain(
    format: Format, project: ChatMessage -> string, messages: History, duplicates: Replacements, second: Replacements,
    i: int)
    requires Renders(format, project) && Replaces(format, CallNames(messages), messages, duplicates)
    requires var next := Payload(format, project, messages, duplicates); Replaces(format, CallNames(next), next, second)
    requires 0 <= i < |messages|
    ensures var next := Payload(format, project, messages, duplicates);
            Payload(format, project, next, second)[i] == next[i] <==> i !in second
  {
    hide CallNames, Payload, Superseded, Replaces;
    var next := Payload(format, project, messages, duplicates);
    PayloadAt(format, project, CallNames(messages), messages, duplicates, i);
    PayloadAt(format, project, CallNames(next), next, second, i);
    if i in duplicates {
      SupersededIsTool(format, CallNames(messages), messages, i);
    }
  }

  // ---------------------------------------------------------------- two reads completed by their rendering

  lemma KeylessKeeps(format: Format, names: Names, a: ChatMessage, b: ChatMessage, duplicates: Replacements)
    requires EligibleKey(format, names, a).None? && EligibleKey(format, names, b).None?
    requires Replaces(format, names, [a, b], duplicates)
    ensures duplicates == map[] && forall i :: !Superseded(format, names, [a, b], i)
  {
    hide EligibleKey, NamesLast, LastOfGroup, CallsUnique;
    assert forall i :: !Superseded(format, names, [a, b], i);
    assert forall i :: i !in duplicates;
  }

  /** Two results with distinct calls that get the same key by being rendered: the second pass replaces the first. */
  lemma PairReplacedLater(
    format: Format, project: ChatMessage -> string, a: ChatMessage, b: ChatMessage, key: ReadKey,
    duplicates: Replacements, second: Replacements)
    requires Renders(format, project) && Trim(a.toolCallID) != Trim(b.toolCallID)
    requires var names := CallNames([a, b]);
             && EligibleKey(format, names, a).None? && EligibleKey(format, names, b).None?
             && ShownKey(format, project, names, a) == Some(key) && ShownKey(format, project, names, b) == Some(key)
    requires Replaces(format, CallNames([a, b]), [a, b], duplicates)
    requires var next := Payload(format, project, [a, b], duplicates); Replaces(format, CallNames(next), next, second)
    ensures duplicates == map[] && second == map[0 := b.toolCallID]
  {
    hide EligibleKey, ShownKey, Trim, CallNames, Payload, Renders, Superseded, NamesLast;
    var messages, names := [a, b], CallNames([a, b]);
    var next := Payload(format, project, messages, duplicates);
    KeylessKeeps(format, names, a, b, duplicates);
    assert Stays(format, project, names, messages, key, 0) && Stays(format, project, names, messages, key, 1);
    PairApart(format, project, names, messages, key);
    FirstOvertaken(format, project, names, messages, key);
    hide StayApart, Overtaken, Reopened;
    SecondPassExactly(format, project, messages, duplicates, second);
    RewrittenNames(messages, next);
    forall i
      ensures InGroup(format, names, next, key, i) <==> Stays(format, project, names, messages, key, i)
    {
      PayloadGroup(format, project, names, messages, duplicates, key, i);
    }
    LastNamed(format, names, next, key, second);
    assert next[1].toolCallID == messages[1].toolCallID;
    forall i
      ensures i in second <==> i == 0
    {
      assert Overtaken(format, project, names, messages, i) <==> i == 0;
    }
    assert second.Keys == {0};
  }

  lemma PairApart(format: Format, project: ChatMessage -> string, names: Names, messages: History, key: ReadKey)
    requires |messages| == 2 && Trim(messages[0].toolCallID) != Trim(messages[1].toolCallID)
    ensures StayApart(format, project, names, messages, key)
  {
    hide Trim, Stays;
    StaysInRange(format, project, names, messages, key);
  }

  lemma FirstOvertaken(format: Format, project: ChatMessage -> string, names: Names, messages: History, key: ReadKey)
    requires |messages| == 2 && StayApart(format, project, names, messages, key)
    requires Stays(format, project, names, messages, key, 0) && Stays(format, project, names, messages, key, 1)
    ensures forall i :: Overtaken(format, project, names, messages, i) <==> i == 0
  {
    hide ShownKey, Superseded, StayApart;
    forall i
      ensures Overtaken(format, project, names, messages, i) <==> i == 0
    {}
  }

  lemma LastNamed(format: Format, names: Names, next: History, key: ReadKey, second: Replacements)
    requires |next| == 2 && Replaces(format, names, next, second) && 0 in second
    requires InGroup(format, names, next, key, 0) && InGroup(format, names, next, key, 1)
    ensures second[0] == next[1].toolCallID
  {
    hide EligibleKey, Superseded;
    assert LastOfGroup(format, names, next, key, 1);
  }
}
