/**
  What a compaction keeps of the old history: the newest user messages that fit a token
  budget, each with the attachment placeholders that follow it.
 */
module CompactionRetention {
  import opened Wrappers
  import opened Text
  import opened Seqs
  import opened Chat
  import opened ModelMessages

  const IMAGE_TOKENS: nat := 4096

  const RESERVE_PERCENT: nat := 25

  /** projectEinoAssistantApproxTokenCount: four characters a token, rounded up. */
  function ApproxTokens(text: string): nat { (|text| + 3) / 4 }

  /** Stands for the marker put at the end of a truncated message. */
  const TRUNCATION_MARKER := "\n[... truncated ...]"

  /** projectEinoAssistantTruncateToTokens. */
  function Truncate(text: string, maxTokens: int): (t: string)
    ensures maxTokens > 0 && ApproxTokens(text) > maxTokens ==> ApproxTokens(t) == maxTokens
    ensures maxTokens > 0 && ApproxTokens(text) <= maxTokens ==> t == text
  {
    if maxTokens <= 0 then ""
    else
      var maxRunes := maxTokens * 4;
      if |text| <= maxRunes then text
      else if |TRUNCATION_MARKER| >= maxRunes then TRUNCATION_MARKER[..maxRunes]
      else text[..maxRunes - |TRUNCATION_MARKER|] + TRUNCATION_MARKER
  }

  /**
    How many image receipts a placeholder carries, None when its receipts cannot be read.
   */
  type ImageCount = Message -> Option<nat>

  predicate Placeholder(m: Message) { m.Message? && m.marks.historical }

  /** A genuine user message with something to say. */
  predicate Eligible(m: Message)
  {
    && HasRole(m, User) && !Placeholder(m)
    && Trim(m.content) != ""
    && !(SUMMARY_PREAMBLE <= Trim(m.content))
    && !IsEvidence(m.extra)
  }

  datatype Cost = Cost(tokens: nat, readable: bool)

  /** Image tokens of the pending placeholders, up to the first unreadable one. */
  function PendingCost(images: ImageCount, pending: Messages): Cost
  {
    if pending == [] then Cost(0, true)
    else
      match images(pending[0])
      case None => Cost(0, false)
      case Some(n) =>
        var rest := PendingCost(images, pending[1..]);
        Cost(n * IMAGE_TOKENS + rest.tokens, rest.readable)
  }

  function Reversed(s: Messages): (r: Messages)
    ensures |r| == |s|
    ensures forall i :: 0 <= i < |s| ==> r[i] == s[|s| - 1 - i]
  {
    if s == [] then [] else Reversed(s[1..]) + [s[0]]
  }

  /** One retained user message at `index` with its placeholders; `text` is what it is charged for. */
  datatype Group = Group(index: nat, retained: Message, text: string, placeholders: Messages)

  /** What one eligible message takes out of the remaining budget. */
  datatype Charge = Charge(group: Group, left: int)

  function ChargeFor(images: ImageCount, messages: Messages, index: nat, remaining: int, pending: Messages): Charge
    requires index < |messages| && messages[index].Message?
  {
    var content := Trim(messages[index].content);
    var cost := PendingCost(images, pending);
    var keep := cost.tokens < remaining;
    var left := if keep then remaining - cost.tokens else remaining;
    var placeholders := if keep && cost.readable then Reversed(pending) else [];
    var tokens := ApproxTokens(content);
    if tokens > left then
      var text := Truncate(content, left);
      Charge(Group(index, UserMessage(text), text, placeholders), 0)
    else Charge(Group(index, messages[index], content, placeholders), left - tokens)
  }

  /** The walk over the first `n` messages, newest first, with placeholders seen and not yet owned. */
  function Walk(images: ImageCount, messages: Messages, n: nat, remaining: int, pending: Messages): seq<Group>
    requires n <= |messages|
  {
    if n == 0 || remaining <= 0 then []
    else
      var m := messages[n - 1];
      if Placeholder(m) then Walk(images, messages, n - 1, remaining, pending + [m])
      else if !Eligible(m) then Walk(images, messages, n - 1, remaining, [])
      else
        var charge := ChargeFor(images, messages, n - 1, remaining, pending);
        Walk(images, messages, n - 1, charge.left, []) + [charge.group]
  }

  function Groups(images: ImageCount, messages: Messages, maxTokens: int): seq<Group>
  {
    Walk(images, messages, |messages|, maxTokens, [])
  }

  function Rendered(groups: seq<Group>): Messages
  {
    if groups == [] then [] else [groups[0].retained] + groups[0].placeholders + Rendered(groups[1..])
  }

  // ---------------------------------------------------------------- the loops

  method CountPending(images: ImageCount, pending: Messages) returns (cost: Cost)
    ensures cost == PendingCost(images, pending)
  {
    var tokens: nat := 0;
    for i := 0 to |pending|
      invariant var rest := PendingCost(images, pending[i..]);
                PendingCost(images, pending) == Cost(tokens + rest.tokens, rest.readable)
    {
      assert pending[i..][1..] == pending[i + 1..];
      match images(pending[i])
      case None => return Cost(tokens, false);
      case Some(n) => tokens := tokens + n * IMAGE_TOKENS;
    }
    return Cost(tokens, true);
  }

  method Reverse(s: Messages) returns (r: Messages)
    ensures r == Reversed(s)
  {
    r := [];
    var i := |s| - 1;
    while i >= 0
      invariant -1 <= i < |s|
      invariant |r| == |s| - 1 - i && forall k :: 0 <= k < |r| ==> r[k] == s[|s| - 1 - k]
    {
      r := r + [s[i]];
      i := i - 1;
    }
  }

  method ChargeMessage(images: ImageCount, messages: Messages, index: nat, remaining: int, pending: Messages)
    returns (charge: Charge)
    requires index < |messages| && messages[index].Message?
    ensures charge == ChargeFor(images, messages, index, remaining, pending)
  {
    hide Trim, Truncate, ApproxTokens, Reversed, PendingCost;
    var content := Trim(messages[index].content);
    var cost := CountPending(images, pending);
    var left := remaining;
    var kept := if cost.readable then pending else [];
    if cost.tokens < left {
      left := left - cost.tokens;
    } else {
      kept := [];
    }
    var placeholders := Reverse(kept);
    NothingReversed();
    var tokens := ApproxTokens(content);
    if tokens > left {
      var text := Truncate(content, left);
      return Charge(Group(index, UserMessage(text), text, placeholders), 0);
    }
    return Charge(Group(index, messages[index], content, placeholders), left - tokens);
  }

  lemma NothingReversed()
    ensures Reversed([]) == []
  {}

  method SelectGroups(images: ImageCount, messages: Messages, maxTokens: int) returns (groups: seq<Group>)
    ensures groups == Groups(images, messages, maxTokens)
  {
    hide Eligible, ChargeFor;
    var remaining := maxTokens;
    groups := [];
    var pending: Messages := [];
    var index := |messages| - 1;
    while index >= 0 && remaining > 0
      invariant -1 <= index < |messages|
      invariant Walk(images, messages, index + 1, remaining, pending) + groups == Groups(images, messages, maxTokens)
    {
      var message := messages[index];
      if Placeholder(message) {
        pending := pending + [message];
      } else if !Eligible(message) {
        pending := [];
      } else {
        EligibleIsMessage(message);
        var charge := ChargeMessage(images, messages, index, remaining, pending);
        Assoc(Walk(images, messages, index, charge.left, []), [charge.group], groups);
        groups := [charge.group] + groups;
        remaining := charge.left;
        pending := [];
      }
      index := index - 1;
    }
  }

  lemma EligibleIsMessage(m: Message)
    requires Eligible(m)
    ensures m.Message?
  {}

  /** projectEinoAssistantRecentUserMessages. */
  method RecentUserMessages(images: ImageCount, messages: Messages, maxTokens: int) returns (selected: Messages)
    ensures selected == Rendered(Groups(images, messages, maxTokens))
  {
    if maxTokens <= 0 {
      return [];
    }
    var groups := SelectGroups(images, messages, maxTokens);
    selected := [];
    for i := 0 to |groups|
      invariant selected + Rendered(groups[i..]) == Rendered(groups)
    {
      hide Groups;
      assert groups[i..][1..] == groups[i + 1..];
      var added := [groups[i].retained] + groups[i].placeholders;
      Assoc(selected, added, Rendered(groups[i + 1..]));
      selected := selected + added;
    }
  }

  // ---------------------------------------------------------------- what is retained

  /** Positions of the eligible messages among the first `n`. */
  function EligibleUpTo(messages: Messages, n: nat): seq<nat>
    requires n <= |messages|
  {
    if n == 0 then []
    else EligibleUpTo(messages, n - 1) + (if Eligible(messages[n - 1]) then [n - 1] else [])
  }

  function Indices(groups: seq<Group>): (r: seq<nat>)
    ensures |r| == |groups|
  {
    if groups == [] then [] else Indices(groups[..|groups| - 1]) + [groups[|groups| - 1].index]
  }

  predicate IsSuffix(a: seq<nat>, b: seq<nat>)
  {
    |a| <= |b| && a == b[|b| - |a|..]
  }

  /** Total charge of the retained text and images. */
  function Charged(images: ImageCount, groups: seq<Group>): nat
  {
    if groups == [] then 0
    else
      var g := groups[|groups| - 1];
      Charged(images, groups[..|groups| - 1]) + ApproxTokens(g.text) + PendingCost(images, g.placeholders).tokens
  }

  /** Placeholders `p` are exactly the run of placeholders directly behind position `index`. */
  predicate OwnRun(messages: Messages, index: nat, p: Messages)
  {
    && index + 1 + |p| <= |messages|
    && messages[index + 1..index + 1 + |p|] == p
    && (forall k :: 0 <= k < |p| ==> Placeholder(p[k]))
    && (index + 1 + |p| < |messages| ==> !Placeholder(messages[index + 1 + |p|]))
  }

  /** A retained group belongs to its message: its own text, whole or cut, and its own placeholders. */
  predicate Faithful(messages: Messages, g: Group, mayCut: bool)
  {
    && g.index < |messages| && messages[g.index].Message?
    && (g.placeholders == [] || OwnRun(messages, g.index, g.placeholders))
    && ((g.retained == messages[g.index] && g.text == Trim(messages[g.index].content))
        || (mayCut && g.retained == UserMessage(g.text)
            && ApproxTokens(g.text) < ApproxTokens(Trim(messages[g.index].content))))
  }

  predicate AllFaithful(messages: Messages, groups: seq<Group>)
  {
    forall k :: 0 <= k < |groups| ==> Faithful(messages, groups[k], k == 0)
  }

  /** The pending list is the reversed run of placeholders that starts at `n`. */
  predicate PendingRun(messages: Messages, n: nat, pending: Messages)
  {
    && n + |pending| <= |messages|
    && (forall k :: 0 <= k < |pending| ==>
          Placeholder(pending[k]) && pending[k] == messages[n + |pending| - 1 - k])
    && (n + |pending| < |messages| ==> !Placeholder(messages[n + |pending|]))
  }

  lemma ReversedRun(messages: Messages, n: nat, pending: Messages)
    requires 1 <= n && PendingRun(messages, n, pending)
    ensures OwnRun(messages, n - 1, Reversed(pending))
  {
    assert messages[n..n + |pending|] == Reversed(pending);
  }

  lemma {:induction false} CostAppend(images: ImageCount, a: Messages, m: Message)
    requires PendingCost(images, a).readable && images(m).Some?
    ensures PendingCost(images, a + [m]) == Cost(PendingCost(images, a).tokens + images(m).value * IMAGE_TOKENS, true)
    decreases |a|
  {
    if a == [] {
      assert a + [m] == [m] && [m][1..] == [];
    } else {
      assert (a + [m])[1..] == a[1..] + [m];
      CostAppend(images, a[1..], m);
    }
  }

  lemma {:induction false} CostReversed(images: ImageCount, pending: Messages)
    requires PendingCost(images, pending).readable
    ensures PendingCost(images, Reversed(pending)) == PendingCost(images, pending)
    decreases |pending|
  {
    if pending != [] {
      CostReversed(images, pending[1..]);
      CostAppend(images, Reversed(pending[1..]), pending[0]);
    }
  }

  /** One charge: a group is cut only when that uses up the budget, and is paid for exactly. */
  lemma ChargeIsPaid(images: ImageCount, messages: Messages, index: nat, remaining: int, pending: Messages)
    requires index < |messages| && messages[index].Message? && remaining > 0
    ensures var c := ChargeFor(images, messages, index, remaining, pending);
            var spent := ApproxTokens(c.group.text) + PendingCost(images, c.group.placeholders).tokens;
            && 0 <= c.left && spent + c.left <= remaining
            && (PendingCost(images, pending).readable ==> spent + c.left == remaining)
            && (ApproxTokens(c.group.text) < ApproxTokens(Trim(messages[index].content)) ==> c.left == 0)
  {
    hide Trim, Truncate;
    if PendingCost(images, pending).readable {
      CostReversed(images, pending);
    }
    NoCost(images);
    hide PendingCost, Reversed, ApproxTokens;
  }

  /** One charge: the group belongs to its message. */
  lemma ChargeIsFair(images: ImageCount, messages: Messages, index: nat, remaining: int, pending: Messages)
    requires index < |messages| && Eligible(messages[index]) && remaining > 0
    requires PendingRun(messages, index + 1, pending)
    ensures var c := ChargeFor(images, messages, index, remaining, pending);
            var spent := ApproxTokens(c.group.text) + PendingCost(images, c.group.placeholders).tokens;
            && Faithful(messages, c.group, c.left == 0)
            && c.group.index == index && 0 <= c.left
            && spent + c.left <= remaining
            && (PendingCost(images, pending).readable ==> spent + c.left == remaining)
  {
    hide Trim, Truncate;
    EligibleIsMessage(messages[index]);
    ChargeIsPaid(images, messages, index, remaining, pending);
    ReversedRun(messages, index + 1, pending);
    hide Eligible, OwnRun, PendingRun, PendingCost, Reversed, ApproxTokens;
  }

  lemma NoCost(images: ImageCount)
    ensures PendingCost(images, []) == Cost(0, true)
  {}

  lemma SuffixAppend(a: seq<nat>, b: seq<nat>, x: nat)
    requires IsSuffix(a, b)
    ensures IsSuffix(a + [x], b + [x])
  {}

  /** What the walk over the first `n` messages has established. */
  ghost predicate Sound(images: ImageCount, messages: Messages, n: nat, remaining: int, groups: seq<Group>)
    requires n <= |messages|
  {
    && IsSuffix(Indices(groups), EligibleUpTo(messages, n))
    && AllFaithful(messages, groups)
    && Charged(images, groups) <= (if remaining > 0 then remaining else 0)
    && (remaining <= 0 ==> groups == [])
  }

  lemma SoundAppend(
    images: ImageCount, messages: Messages, n: nat, remaining: int, c: Charge, older: seq<Group>)
    requires n < |messages| && Eligible(messages[n]) && remaining > 0
    requires 0 <= c.left && c.group.index == n && Faithful(messages, c.group, c.left == 0)
    requires ApproxTokens(c.group.text) + PendingCost(images, c.group.placeholders).tokens + c.left <= remaining
    requires Sound(images, messages, n, c.left, older)
    ensures Sound(images, messages, n + 1, remaining, older + [c.group])
  {
    hide Eligible, Faithful, PendingCost, ApproxTokens;
    var groups := older + [c.group];
    assert groups[..|older|] == older;
    SuffixAppend(Indices(older), EligibleUpTo(messages, n), n);
    forall k | 0 <= k < |groups|
      ensures Faithful(messages, groups[k], k == 0)
    {
      if k == |older| {
        if k > 0 {
          assert c.left > 0;
        } else {
          CutIsOptional(messages, c.group, c.left == 0);
        }
      } else {
        assert groups[k] == older[k];
      }
    }
  }

  lemma CutIsOptional(messages: Messages, g: Group, mayCut: bool)
    requires Faithful(messages, g, mayCut)
    ensures Faithful(messages, g, true)
  {}

  lemma {:induction false} WalkIsSound(images: ImageCount, messages: Messages, n: nat, remaining: int, pending: Messages)
    requires n <= |messages| && PendingRun(messages, n, pending)
    ensures Sound(images, messages, n, remaining, Walk(images, messages, n, remaining, pending))
    decreases n
  {
    hide Sound, PendingRun, Eligible, ChargeFor, Placeholder;
    if n == 0 || remaining <= 0 {
      EmptySound(images, messages, n, remaining);
    } else {
      var m := messages[n - 1];
      PendingGrows(messages, n, pending);
      if Placeholder(m) {
        WalkIsSound(images, messages, n - 1, remaining, pending + [m]);
        SkipIneligible(images, messages, n, remaining, Walk(images, messages, n - 1, remaining, pending + [m]));
      } else if !Eligible(m) {
        WalkIsSound(images, messages, n - 1, remaining, []);
        SkipIneligible(images, messages, n, remaining, Walk(images, messages, n - 1, remaining, []));
      } else {
        EligibleIsMessage(m);
        ChargeIsFair(images, messages, n - 1, remaining, pending);
        var c := ChargeFor(images, messages, n - 1, remaining, pending);
        WalkIsSound(images, messages, n - 1, c.left, []);
        SoundAppend(images, messages, n - 1, remaining, c, Walk(images, messages, n - 1, c.left, []));
      }
    }
  }

  lemma EmptySound(images: ImageCount, messages: Messages, n: nat, remaining: int)
    requires n <= |messages|
    ensures Sound(images, messages, n, remaining, [])
  {}

  lemma SkipIneligible(images: ImageCount, messages: Messages, n: nat, remaining: int, groups: seq<Group>)
    requires 0 < n <= |messages| && !Eligible(messages[n - 1]) && Sound(images, messages, n - 1, remaining, groups)
    ensures Sound(images, messages, n, remaining, groups)
  {
    assert EligibleUpTo(messages, n) == EligibleUpTo(messages, n - 1);
  }

  lemma PendingGrows(messages: Messages, n: nat, pending: Messages)
    requires 0 < n <= |messages| && PendingRun(messages, n, pending)
    ensures Placeholder(messages[n - 1]) ==> PendingRun(messages, n - 1, pending + [messages[n - 1]])
    ensures Placeholder(messages[n - 1]) ==> !Eligible(messages[n - 1])
    ensures !Placeholder(messages[n - 1]) ==> PendingRun(messages, n - 1, [])
  {}

  /**
    The retained user messages are the newest eligible ones, in order and without a gap;
    only the oldest of them may be cut; every placeholder follows its own message, whole
    runs only; and the charged text plus 4096 tokens an image never exceed the budget.
   */
  lemma RetentionIsSound(images: ImageCount, messages: Messages, maxTokens: int)
    ensures Sound(images, messages, |messages|, maxTokens, Groups(images, messages, maxTokens))
  {
    WalkIsSound(images, messages, |messages|, maxTokens, []);
  }

  // ---------------------------------------------------------------- exactly what is retained

  /** The placeholders that stand in a row from position `n` on. */
  function RunFrom(messages: Messages, n: nat): Messages
    requires n <= |messages|
    decreases |messages| - n
  {
    if n < |messages| && Placeholder(messages[n]) then [messages[n]] + RunFrom(messages, n + 1) else []
  }

  /** Image tokens of the placeholders behind position `i`, as far as they are read. */
  function ImageCost(images: ImageCount, messages: Messages, i: nat): Cost
    requires i < |messages|
  {
    PendingCost(images, Reversed(RunFrom(messages, i + 1)))
  }

  /** Image tokens taken out of the remaining budget, whether or not the images are kept. */
  function Taken(images: ImageCount, messages: Messages, i: nat, remaining: int): nat
    requires i < |messages|
  {
    if ImageCost(images, messages, i).tokens < remaining then ImageCost(images, messages, i).tokens else 0
  }

  function Content(messages: Messages, i: nat): string
    requires i < |messages|
  {
    if messages[i].Message? then Trim(messages[i].content) else ""
  }

  /** The budget left when every message from position `n` on has taken its share. */
  function LeftAt(images: ImageCount, messages: Messages, n: nat, maxTokens: int): int
    requires n <= |messages|
    decreases |messages| - n
  {
    if n == |messages| then maxTokens
    else
      var remaining := LeftAt(images, messages, n + 1, maxTokens);
      if remaining <= 0 || !Eligible(messages[n]) then remaining
      else
        var left := remaining - Taken(images, messages, n, remaining) - ApproxTokens(Content(messages, n));
        if left > 0 then left else 0
  }

  /** What is kept of an eligible message that is reached with `remaining` tokens. */
  predicate KeptAs(images: ImageCount, messages: Messages, g: Group, remaining: int)
  {
    && g.index < |messages| && Eligible(messages[g.index]) && remaining > 0
    && var cost, text := ImageCost(images, messages, g.index), Content(messages, g.index);
       var left := remaining - Taken(images, messages, g.index, remaining);
       && g.placeholders
            == (if cost.tokens < remaining && cost.readable then RunFrom(messages, g.index + 1) else [])
       && (if ApproxTokens(text) <= left then g.retained == messages[g.index] && g.text == text
           else g.text == Truncate(text, left) && g.retained == UserMessage(g.text))
  }

  /** The walk from position `n` on, with the budget and the placeholders it finds there. */
  function Rest(images: ImageCount, messages: Messages, n: nat, maxTokens: int): seq<Group>
    requires n <= |messages|
  {
    Walk(images, messages, n, LeftAt(images, messages, n, maxTokens), Reversed(RunFrom(messages, n)))
  }

  lemma {:induction false} ReversedTwice(s: Messages)
    ensures Reversed(Reversed(s)) == s
  {}

  lemma ReversedGrows(m: Message, s: Messages)
    ensures Reversed([m] + s) == Reversed(s) + [m]
  {
    assert ([m] + s)[1..] == s;
  }

  lemma RunFromStep(messages: Messages, n: nat)
    requires 0 < n <= |messages|
    ensures Placeholder(messages[n - 1]) ==> Reversed(RunFrom(messages, n - 1)) == Reversed(RunFrom(messages, n)) + [messages[n - 1]]
    ensures !Placeholder(messages[n - 1]) ==> Reversed(RunFrom(messages, n - 1)) == []
  {
    hide Placeholder, Reversed;
    NothingReversed();
    ReversedGrows(messages[n - 1], RunFrom(messages, n));
  }

  lemma ChargeLeaves(images: ImageCount, messages: Messages, i: nat, remaining: int)
    requires i < |messages| && messages[i].Message? && remaining > 0
    ensures var c := ChargeFor(images, messages, i, remaining, Reversed(RunFrom(messages, i + 1)));
            var left := remaining - Taken(images, messages, i, remaining) - ApproxTokens(Content(messages, i));
            c.group.index == i && c.left == if left > 0 then left else 0
  {
    hide Trim, Truncate, ApproxTokens, PendingCost, RunFrom, Reversed;
  }

  lemma ChargeGroups(images: ImageCount, messages: Messages, i: nat, remaining: int)
    requires i < |messages| && messages[i].Message? && Eligible(messages[i]) && remaining > 0
    ensures KeptAs(images, messages,
              ChargeFor(images, messages, i, remaining, Reversed(RunFrom(messages, i + 1))).group, remaining)
  {
    hide Eligible, Trim, Truncate, ApproxTokens, PendingCost, RunFrom, Reversed;
    ReversedTwice(RunFrom(messages, i + 1));
    NothingReversed();
  }

  lemma ChargeIsKept(images: ImageCount, messages: Messages, i: nat, remaining: int)
    requires i < |messages| && Eligible(messages[i]) && remaining > 0
    ensures messages[i].Message?
    ensures var c := ChargeFor(images, messages, i, remaining, Reversed(RunFrom(messages, i + 1)));
            var left := remaining - Taken(images, messages, i, remaining) - ApproxTokens(Content(messages, i));
            && KeptAs(images, messages, c.group, remaining) && c.group.index == i
            && c.left == if left > 0 then left else 0
  {
    hide Eligible, KeptAs, ChargeFor, Taken, Content, ApproxTokens, RunFrom, Reversed;
    EligibleIsMessage(messages[i]);
    ChargeLeaves(images, messages, i, remaining);
    ChargeGroups(images, messages, i, remaining);
  }

  /** One step of the walk. */
  lemma RestStep(images: ImageCount, messages: Messages, n: nat, maxTokens: int)
    requires 0 < n <= |messages|
    ensures var remaining := LeftAt(images, messages, n, maxTokens);
            && (remaining <= 0 ==> Rest(images, messages, n, maxTokens) == [])
            && (remaining > 0 && !Eligible(messages[n - 1]) ==>
                  && Rest(images, messages, n, maxTokens) == Rest(images, messages, n - 1, maxTokens)
                  && LeftAt(images, messages, n - 1, maxTokens) == remaining)
            && (remaining > 0 && Eligible(messages[n - 1]) ==>
                  var c := ChargeFor(images, messages, n - 1, remaining, Reversed(RunFrom(messages, n)));
                  && Rest(images, messages, n, maxTokens) == Rest(images, messages, n - 1, maxTokens) + [c.group]
                  && LeftAt(images, messages, n - 1, maxTokens) == c.left)
  {
    hide Eligible, Placeholder, ChargeFor, ApproxTokens, Content, Taken, Reversed, RunFrom, KeptAs;
    RunFromStep(messages, n);
    PlaceholderIsNotEligible(messages[n - 1]);
    if LeftAt(images, messages, n, maxTokens) > 0 && Eligible(messages[n - 1]) {
      ChargeIsKept(images, messages, n - 1, LeftAt(images, messages, n, maxTokens));
    }
  }

  lemma PlaceholderIsNotEligible(m: Message)
    ensures Placeholder(m) ==> !Eligible(m)
  {}

  lemma RestOfAll(images: ImageCount, messages: Messages, maxTokens: int)
    ensures Rest(images, messages, |messages|, maxTokens) == Groups(images, messages, maxTokens)
  {
    NothingReversed();
  }

  lemma {:induction false} SpentStaysSpent(images: ImageCount, messages: Messages, i: nat, n: nat, maxTokens: int)
    requires i <= n <= |messages| && LeftAt(images, messages, n, maxTokens) <= 0
    ensures LeftAt(images, messages, i, maxTokens) <= 0
    decreases n - i
  {
    hide Eligible, Content, Taken, ApproxTokens;
    if i < n {
      SpentStaysSpent(images, messages, i + 1, n, maxTokens);
    }
  }

  /** Every group of the walk is kept as the budget at its message says. */
  ghost predicate AllKept(images: ImageCount, messages: Messages, groups: seq<Group>, maxTokens: int)
  {
    forall k :: 0 <= k < |groups| ==>
      groups[k].index < |messages|
      && KeptAs(images, messages, groups[k], LeftAt(images, messages, groups[k].index + 1, maxTokens))
  }

  /** Position `i` is retained. */
  predicate RetainedAt(groups: seq<Group>, i: nat)
  {
    exists k :: 0 <= k < |groups| && groups[k].index == i
  }

  lemma RetainedGrows(older: seq<Group>, g: Group, i: nat)
    ensures RetainedAt(older + [g], i) <==> RetainedAt(older, i) || g.index == i
  {
    var all := older + [g];
    if RetainedAt(older, i) {
      var k :| 0 <= k < |older| && older[k].index == i;
      assert all[k].index == i;
    }
    if g.index == i {
      assert all[|older|].index == i;
    }
  }

  lemma {:induction false} RestKept(images: ImageCount, messages: Messages, n: nat, maxTokens: int)
    requires n <= |messages|
    ensures AllKept(images, messages, Rest(images, messages, n, maxTokens), maxTokens)
    decreases n
  {
    hide Eligible, KeptAs, LeftAt, ChargeFor, Rest;
    if n == 0 {
      NothingRests(images, messages, maxTokens);
    } else {
      RestStep(images, messages, n, maxTokens);
      RestKept(images, messages, n - 1, maxTokens);
      var remaining := LeftAt(images, messages, n, maxTokens);
      if remaining > 0 && Eligible(messages[n - 1]) {
        ChargeIsKept(images, messages, n - 1, remaining);
      }
    }
  }

  lemma NothingRests(images: ImageCount, messages: Messages, maxTokens: int)
    ensures Rest(images, messages, 0, maxTokens) == []
  {}

  lemma {:induction false} RestHolds(images: ImageCount, messages: Messages, n: nat, maxTokens: int, i: nat)
    requires n <= |messages| && i < |messages|
    ensures RetainedAt(Rest(images, messages, n, maxTokens), i) <==>
              i < n && Eligible(messages[i]) && LeftAt(images, messages, i + 1, maxTokens) > 0
    decreases n
  {
    hide Eligible, KeptAs, LeftAt, ChargeFor, Rest, RetainedAt;
    if n == 0 {
      NothingRests(images, messages, maxTokens);
      NothingRetained(i);
    } else {
      RestStep(images, messages, n, maxTokens);
      RestHolds(images, messages, n - 1, maxTokens, i);
      var remaining := LeftAt(images, messages, n, maxTokens);
      if remaining <= 0 {
        NothingRetained(i);
        if i < n {
          SpentStaysSpent(images, messages, i + 1, n, maxTokens);
        }
      } else if Eligible(messages[n - 1]) {
        ChargeIsKept(images, messages, n - 1, remaining);
        var c := ChargeFor(images, messages, n - 1, remaining, Reversed(RunFrom(messages, n)));
        RetainedGrows(Rest(images, messages, n - 1, maxTokens), c.group, i);
      }
    }
  }

  lemma NothingRetained(i: nat)
    ensures !RetainedAt([], i)
  {}

  /**
    Exactly what is retained: a message is kept if and only if it is eligible and the
    newer ones left some budget; it is kept whole if its trimmed text fits what is left
    behind its images, and its placeholders stay, all of them, if and only if they are
    readable and cost less than what remained.
   */
  lemma RetainedExactly(images: ImageCount, messages: Messages, maxTokens: int, i: nat)
    requires i < |messages|
    ensures var groups := Groups(images, messages, maxTokens);
            && (RetainedAt(groups, i) <==> Eligible(messages[i]) && LeftAt(images, messages, i + 1, maxTokens) > 0)
            && AllKept(images, messages, groups, maxTokens)
  {
    hide Groups, Rest, Eligible, LeftAt, RetainedAt, AllKept;
    RestOfAll(images, messages, maxTokens);
    RestHolds(images, messages, |messages|, maxTokens, i);
    RestKept(images, messages, |messages|, maxTokens);
  }

  // ---------------------------------------------------------------- where the budget goes

  /** Image tokens taken at positions from `n` on for placeholders that were then dropped as unreadable. */
  function Lost(images: ImageCount, messages: Messages, n: nat, maxTokens: int): nat
    requires n <= |messages|
    decreases |messages| - n
  {
    if n == |messages| then 0
    else
      var remaining := LeftAt(images, messages, n + 1, maxTokens);
      Lost(images, messages, n + 1, maxTokens)
        + (if remaining > 0 && Eligible(messages[n]) && !ImageCost(images, messages, n).readable
           then Taken(images, messages, n, remaining) else 0)
  }

  /** The tokens one kept group is charged for. */
  function GroupCharge(images: ImageCount, g: Group): nat
  {
    ApproxTokens(g.text) + PendingCost(images, g.placeholders).tokens
  }

  lemma ChargedGrows(images: ImageCount, older: seq<Group>, g: Group)
    ensures Charged(images, older + [g]) == Charged(images, older) + GroupCharge(images, g)
  {
    hide ApproxTokens, PendingCost;
    assert (older + [g])[..|older|] == older;
  }

  /** The image tokens of a kept group are those taken, unless they were lost. */
  lemma KeptImages(images: ImageCount, messages: Messages, g: Group, remaining: int)
    requires KeptAs(images, messages, g, remaining)
    ensures PendingCost(images, g.placeholders).tokens
         == if ImageCost(images, messages, g.index).readable then Taken(images, messages, g.index, remaining) else 0
  {
    hide Eligible, Trim, RunFrom, Content, Truncate, ApproxTokens, PendingCost, Reversed, ImageCost;
    NoCost(images);
    if ImageCost(images, messages, g.index).readable {
      RunCost(images, messages, g.index);
    }
  }

  lemma RunCost(images: ImageCount, messages: Messages, i: nat)
    requires i < |messages| && ImageCost(images, messages, i).readable
    ensures PendingCost(images, RunFrom(messages, i + 1)).tokens == ImageCost(images, messages, i).tokens
  {
    hide RunFrom, PendingCost, Reversed;
    var run := RunFrom(messages, i + 1);
    ReversedTwice(run);
    CostReversed(images, Reversed(run));
  }

  /** The text of a kept group is charged in full, or uses up what is left. */
  lemma KeptText(images: ImageCount, messages: Messages, g: Group, remaining: int)
    requires KeptAs(images, messages, g, remaining)
    ensures var left := remaining - Taken(images, messages, g.index, remaining);
            var text := ApproxTokens(Content(messages, g.index));
            ApproxTokens(g.text) == if text <= left then text else left
  {
    hide Eligible, Trim, RunFrom, Content, PendingCost, ImageCost;
    var left := remaining - Taken(images, messages, g.index, remaining);
    assert left > 0;
    hide ApproxTokens;
  }

  /** What a kept message takes from the budget is charged to its group or lost. */
  lemma KeptAccounts(images: ImageCount, messages: Messages, g: Group, remaining: int)
    requires KeptAs(images, messages, g, remaining)
    ensures var taken := Taken(images, messages, g.index, remaining);
            var left := remaining - taken - ApproxTokens(Content(messages, g.index));
            GroupCharge(images, g) + (if ImageCost(images, messages, g.index).readable then 0 else taken)
              + (if left > 0 then left else 0) == remaining
  {
    KeptImages(images, messages, g, remaining);
    KeptText(images, messages, g, remaining);
    hide KeptAs, Taken, ImageCost, ApproxTokens, PendingCost, Content;
  }

  lemma {:induction false} RestAccounts(images: ImageCount, messages: Messages, n: nat, maxTokens: int)
    requires n <= |messages| && LeftAt(images, messages, n, maxTokens) >= 0
    ensures Charged(images, Rest(images, messages, n, maxTokens)) + Lost(images, messages, 0, maxTokens)
              + LeftAt(images, messages, 0, maxTokens)
         == LeftAt(images, messages, n, maxTokens) + Lost(images, messages, n, maxTokens)
    decreases n
  {
    hide Eligible, KeptAs, LeftAt, ChargeFor, Rest, Taken, ImageCost, GroupCharge, Charged, Lost, Content;
    if n == 0 {
      NothingRests(images, messages, maxTokens);
      NothingCharged(images);
    } else {
      RestStep(images, messages, n, maxTokens);
      LostStep(images, messages, n - 1, maxTokens);
      var remaining := LeftAt(images, messages, n, maxTokens);
      if remaining > 0 {
        if Eligible(messages[n - 1]) {
          ChargeIsKept(images, messages, n - 1, remaining);
          var c := ChargeFor(images, messages, n - 1, remaining, Reversed(RunFrom(messages, n)));
          KeptAccounts(images, messages, c.group, remaining);
          ChargedGrows(images, Rest(images, messages, n - 1, maxTokens), c.group);
        }
        RestAccounts(images, messages, n - 1, maxTokens);
      } else {
        NothingCharged(images);
        SpentLosesNothing(images, messages, n, maxTokens);
      }
    }
  }

  lemma NothingCharged(images: ImageCount)
    ensures Charged(images, []) == 0
  {}

  lemma LostStep(images: ImageCount, messages: Messages, n: nat, maxTokens: int)
    requires n < |messages|
    ensures var remaining := LeftAt(images, messages, n + 1, maxTokens);
            Lost(images, messages, n, maxTokens)
              == Lost(images, messages, n + 1, maxTokens)
                 + (if remaining > 0 && Eligible(messages[n]) && !ImageCost(images, messages, n).readable
                    then Taken(images, messages, n, remaining) else 0)
  {
    hide Eligible, LeftAt, ImageCost, Taken;
  }

  lemma {:induction false} SpentLosesNothing(images: ImageCount, messages: Messages, n: nat, maxTokens: int)
    requires n <= |messages| && LeftAt(images, messages, n, maxTokens) == 0
    ensures Lost(images, messages, 0, maxTokens) == Lost(images, messages, n, maxTokens)
    ensures LeftAt(images, messages, 0, maxTokens) == 0
    decreases n
  {
    hide Eligible, Taken, ImageCost, Content, ApproxTokens;
    if n > 0 {
      SpentLosesNothing(images, messages, n - 1, maxTokens);
    }
  }

  /**
    Where the budget goes: charges, tokens lost on unreadable placeholders and what is left
    make up the budget. An eligible message is dropped only when nothing is left; it is
    dropped early, with less charged than the budget, exactly when tokens were lost.
   */
  lemma DroppedExactly(images: ImageCount, messages: Messages, maxTokens: nat, i: nat)
    requires i < |messages| && Eligible(messages[i])
    ensures var groups, lost := Groups(images, messages, maxTokens), Lost(images, messages, 0, maxTokens);
            && Charged(images, groups) + lost + LeftAt(images, messages, 0, maxTokens) == maxTokens
            && (!RetainedAt(groups, i) ==> Charged(images, groups) + lost == maxTokens)
            && (!RetainedAt(groups, i) ==> (Charged(images, groups) < maxTokens <==> lost > 0))
  {
    hide Groups, Rest, Eligible, RetainedAt, Charged, LeftAt, AllKept, Lost;
    RestOfAll(images, messages, maxTokens);
    WholeBudget(images, messages, maxTokens);
    RestAccounts(images, messages, |messages|, maxTokens);
    RetainedExactly(images, messages, maxTokens, i);
    if !RetainedAt(Groups(images, messages, maxTokens), i) {
      SpentStaysSpent(images, messages, 0, i + 1, maxTokens);
      LeftIsNat(images, messages, 0, maxTokens);
    }
  }

  lemma WholeBudget(images: ImageCount, messages: Messages, maxTokens: int)
    ensures LeftAt(images, messages, |messages|, maxTokens) == maxTokens
    ensures Lost(images, messages, |messages|, maxTokens) == 0
  {}

  lemma {:induction false} LeftIsNat(images: ImageCount, messages: Messages, n: nat, maxTokens: nat)
    requires n <= |messages|
    ensures LeftAt(images, messages, n, maxTokens) >= 0
    decreases |messages| - n
  {
    hide Eligible, Taken, Content, ApproxTokens;
    if n < |messages| {
      LeftIsNat(images, messages, n + 1, maxTokens);
    }
  }

  /** The placeholders of a list can all be read. */
  predicate Readable(images: ImageCount, messages: Messages)
  {
    forall m :: m in messages && Placeholder(m) ==> images(m).Some?
  }

  lemma {:induction false} RunIsReadable(images: ImageCount, messages: Messages, n: nat)
    requires n <= |messages| && Readable(images, messages)
    ensures forall m :: m in RunFrom(messages, n) ==> images(m).Some?
    decreases |messages| - n
  {
    hide Placeholder;
    if n < |messages| && Placeholder(messages[n]) {
      RunIsReadable(images, messages, n + 1);
    }
  }

  lemma {:induction false} AllReadable(images: ImageCount, pending: Messages)
    requires forall m :: m in pending ==> images(m).Some?
    ensures PendingCost(images, pending).readable
    decreases |pending|
  {
    if pending != [] {
      AllReadable(images, pending[1..]);
    }
  }

  lemma ReadableCost(images: ImageCount, messages: Messages, i: nat)
    requires i < |messages| && Readable(images, messages)
    ensures ImageCost(images, messages, i).readable
  {
    hide PendingCost;
    var run := RunFrom(messages, i + 1);
    RunIsReadable(images, messages, i + 1);
    forall m | m in Reversed(run)
      ensures images(m).Some?
    {
      var k :| 0 <= k < |run| && Reversed(run)[k] == m;
      assert run[|run| - 1 - k] in run;
    }
    AllReadable(images, Reversed(run));
  }

  /** Readable placeholders lose nothing, so then the walk spends the budget to the last token before it drops a message. */
  lemma {:induction false} ReadableLosesNothing(images: ImageCount, messages: Messages, n: nat, maxTokens: int)
    requires n <= |messages| && Readable(images, messages)
    ensures Lost(images, messages, n, maxTokens) == 0
    decreases |messages| - n
  {
    hide Eligible, Taken, ImageCost, LeftAt, Readable;
    if n < |messages| {
      ReadableLosesNothing(images, messages, n + 1, maxTokens);
      ReadableCost(images, messages, n);
    }
  }

  /** A lone user message that fits when trimmed is kept as it stands. */
  lemma LoneMessage(images: ImageCount, m: Message, maxTokens: int)
    requires Eligible(m) && 0 < maxTokens && ApproxTokens(Trim(m.content)) <= maxTokens
    ensures Groups(images, [m], maxTokens) == [Group(0, m, Trim(m.content), [])]
  {
    hide Trim, ApproxTokens;
    var c := ChargeFor(images, [m], 0, maxTokens, []);
    assert c.group == Group(0, m, Trim(m.content), []) by {
      NothingReversed();
      NoCost(images);
      assert ApproxTokens(Trim(m.content)) <= maxTokens;
    }
    assert Walk(images, [m], 0, c.left, []) == [];
    assert Walk(images, [m], 1, maxTokens, []) == [] + [c.group];
  }

  function Blanks(n: nat): string { seq(n, i => ' ') }

  lemma {:induction false} BlanksTrimmed(n: nat)
    ensures Trim(Blanks(n) + "a") == "a"
  {
    LeftBlanks(n);
  }

  lemma {:induction false} LeftBlanks(n: nat)
    ensures TrimLeft(Blanks(n) + "a") == "a"
  {
    if n == 0 {
      assert Blanks(0) + "a" == "a";
    } else {
      LeftBlanks(n - 1);
      assert (Blanks(n) + "a")[1..] == Blanks(n - 1) + "a" && (Blanks(n) + "a")[0] == ' ';
    }
  }

  /**
    The budget is charged for trimmed text but the message is kept with its padding: on a
    budget of one token, a message of any size can be kept.
   */
  lemma PaddingIsNotCharged(images: ImageCount, n: nat)
    ensures var m := UserMessage(Blanks(n) + "a");
            && Groups(images, [m], 1) == [Group(0, m, "a", [])]
            && ApproxTokens("a") == 1 && ApproxTokens(m.content) > n / 4
  {
    hide Trim, Groups;
    var m := UserMessage(Blanks(n) + "a");
    BlanksTrimmed(n);
    assert |SUMMARY_PREAMBLE| > 1;
    LoneMessage(images, m, 1);
  }

  // ---------------------------------------------------------------- when the bound holds for what is kept

  /** Tokens of what is really kept: the retained text, padding and all, and the images. */
  function KeptSize(images: ImageCount, groups: seq<Group>): nat
  {
    if groups == [] then 0
    else
      var g := groups[|groups| - 1];
      KeptSize(images, groups[..|groups| - 1])
        + (if g.retained.Message? then ApproxTokens(g.retained.content) else 0)
        + PendingCost(images, g.placeholders).tokens
  }

  /** The padding of an eligible message costs no token. */
  predicate CheapPadding(m: Message)
  {
    Eligible(m) ==> m.Message? && ApproxTokens(m.content) <= ApproxTokens(Trim(m.content))
  }

  lemma TrimmedIsSmaller(text: string)
    ensures ApproxTokens(Trim(text)) <= ApproxTokens(text)
    ensures Trim(text) != "" ==> ApproxTokens(Trim(text)) >= 1
  {
    hide TrimLeft, TrimRight;
  }

  /** What a kept group really takes, compared with its charge. */
  lemma GroupSize(images: ImageCount, messages: Messages, g: Group, remaining: int)
    requires KeptAs(images, messages, g, remaining)
    ensures g.retained.Message? && ApproxTokens(g.retained.content) >= ApproxTokens(g.text)
    ensures CheapPadding(messages[g.index]) ==> ApproxTokens(g.retained.content) == ApproxTokens(g.text)
  {
    hide ApproxTokens, Trim, Truncate, PendingCost, ImageCost, Taken, RunFrom;
    EligibleIsMessage(messages[g.index]);
    TrimmedIsSmaller(messages[g.index].content);
  }

  /** With cheap padding everywhere the size of what is kept is its charge. */
  lemma {:induction false} CheapSize(images: ImageCount, messages: Messages, groups: seq<Group>, maxTokens: int)
    requires AllKept(images, messages, groups, maxTokens)
    requires forall i :: 0 <= i < |messages| ==> CheapPadding(messages[i])
    ensures KeptSize(images, groups) == Charged(images, groups)
  {
    hide KeptAs, LeftAt, PendingCost, ApproxTokens, CheapPadding;
    if groups != [] {
      var g := groups[|groups| - 1];
      CheapSize(images, messages, groups[..|groups| - 1], maxTokens);
      GroupSize(images, messages, g, LeftAt(images, messages, g.index + 1, maxTokens));
    }
  }

  /** Kept size is never below the charge, and above it as soon as one group pays for less than it keeps. */
  lemma {:induction false} PaddedSize(
    images: ImageCount, messages: Messages, groups: seq<Group>, maxTokens: int, k: nat)
    requires AllKept(images, messages, groups, maxTokens)
    ensures KeptSize(images, groups) >= Charged(images, groups)
    ensures k < |groups| && groups[k].retained.Message?
              && ApproxTokens(groups[k].retained.content) > ApproxTokens(groups[k].text) ==>
                KeptSize(images, groups) > Charged(images, groups)
  {
    hide KeptAs, LeftAt, PendingCost, ApproxTokens;
    if groups != [] {
      var g := groups[|groups| - 1];
      PaddedSize(images, messages, groups[..|groups| - 1], maxTokens, k);
      GroupSize(images, messages, g, LeftAt(images, messages, g.index + 1, maxTokens));
    }
  }

  /** Charge of everything eligible from position `i` up to `n`, images included. */
  function FullCharge(images: ImageCount, messages: Messages, i: nat, n: nat): nat
    requires i <= n <= |messages|
  {
    if i == n then 0
    else
      FullCharge(images, messages, i, n - 1)
        + (if Eligible(messages[n - 1])
           then ImageCost(images, messages, n - 1).tokens + ApproxTokens(Content(messages, n - 1)) else 0)
  }

  lemma EligibleHasText(messages: Messages, i: nat)
    requires i < |messages| && Eligible(messages[i])
    ensures ApproxTokens(Content(messages, i)) >= 1
  {
    hide Trim;
    TrimmedIsSmaller(messages[i].content);
  }

  /** A budget that pays for the messages from `i` on, and something more, is handed down without loss. */
  lemma {:induction false} ExactBudget(images: ImageCount, messages: Messages, i: nat, n: nat, more: nat)
    requires i <= n <= |messages|
    ensures LeftAt(images, messages, n, FullCharge(images, messages, i, |messages|) + more)
         == FullCharge(images, messages, i, n) + more
    decreases |messages| - n
  {
    hide Eligible, ImageCost, Content, ApproxTokens;
    if n < |messages| {
      ExactBudget(images, messages, i, n + 1, more);
      if Eligible(messages[n]) {
        EligibleHasText(messages, n);
      }
    }
  }

  /** At the exact budget of a padded message the bound fails. */
  lemma PaddedBreaksBound(images: ImageCount, messages: Messages, i: nat)
    requires Readable(images, messages) && i < |messages| && !CheapPadding(messages[i])
    ensures var budget := FullCharge(images, messages, i, |messages|);
            KeptSize(images, Groups(images, messages, budget)) > budget
  {
    hide Eligible, Groups, KeptSize, Charged, LeftAt, FullCharge, KeptAs, Lost, Readable, ApproxTokens, Trim;
    var budget := FullCharge(images, messages, i, |messages|);
    var groups := Groups(images, messages, budget);
    ExactBudget(images, messages, i, i, 0);
    ExactBudget(images, messages, i, i + 1, 0);
    FullStep(images, messages, i);
    EligibleHasText(messages, i);
    RetainedExactly(images, messages, budget, i);
    var k :| 0 <= k < |groups| && groups[k].index == i;
    WholeAtExact(images, messages, groups[k], FullCharge(images, messages, i, i + 1));
    PaddedSize(images, messages, groups, budget, k);
    DroppedExactly(images, messages, budget, i);
    ReadableLosesNothing(images, messages, 0, budget);
    SpentBelow(images, messages, i, budget);
  }

  lemma FullStep(images: ImageCount, messages: Messages, i: nat)
    requires i < |messages| && Eligible(messages[i])
    ensures FullCharge(images, messages, i, i) == 0
    ensures FullCharge(images, messages, i, i + 1)
         == ImageCost(images, messages, i).tokens + ApproxTokens(Content(messages, i))
  {
    hide Eligible, ImageCost, Content, ApproxTokens;
  }

  lemma WholeAtExact(images: ImageCount, messages: Messages, g: Group, remaining: int)
    requires KeptAs(images, messages, g, remaining) && !CheapPadding(messages[g.index])
    requires remaining == ImageCost(images, messages, g.index).tokens + ApproxTokens(Content(messages, g.index))
    ensures g.retained.Message? && ApproxTokens(g.retained.content) > ApproxTokens(g.text)
  {
    EligibleHasText(messages, g.index);
    hide Eligible, Trim, Truncate, ApproxTokens, ImageCost, RunFrom;
  }

  lemma SpentBelow(images: ImageCount, messages: Messages, i: nat, maxTokens: nat)
    requires i <= |messages| && LeftAt(images, messages, i, maxTokens) == 0
    ensures LeftAt(images, messages, 0, maxTokens) == 0
  {
    hide LeftAt;
    SpentStaysSpent(images, messages, 0, i, maxTokens);
    LeftIsNat(images, messages, 0, maxTokens);
  }

  /**
    With readable images, what is kept stays within every budget if and only if no eligible
    message carries padding that costs a token.
   */
  lemma PaddingExactly(images: ImageCount, messages: Messages)
    requires Readable(images, messages)
    ensures (forall budget: nat :: KeptSize(images, Groups(images, messages, budget)) <= budget) <==>
              (forall i :: 0 <= i < |messages| ==> CheapPadding(messages[i]))
  {
    hide Readable, Groups, KeptSize, CheapPadding, Charged, Lost, LeftAt, AllKept, Eligible, RetainedAt;
    if forall i :: 0 <= i < |messages| ==> CheapPadding(messages[i]) {
      forall budget: nat
        ensures KeptSize(images, Groups(images, messages, budget)) <= budget
      {
        KeptWithin(images, messages, budget);
      }
    }
    forall i | 0 <= i < |messages| && !CheapPadding(messages[i])
      ensures exists budget: nat :: KeptSize(images, Groups(images, messages, budget)) > budget
    {
      PaddedBreaksBound(images, messages, i);
    }
  }

  lemma KeptWithin(images: ImageCount, messages: Messages, budget: nat)
    requires forall i :: 0 <= i < |messages| ==> CheapPadding(messages[i])
    ensures KeptSize(images, Groups(images, messages, budget)) <= budget
  {
    hide Groups, KeptSize, CheapPadding, Charged, Lost, LeftAt, AllKept, Eligible, RetainedAt, AllFaithful;
    var groups := Groups(images, messages, budget);
    RetentionIsSound(images, messages, budget);
    if messages == [] {
      NoGroups(images, budget);
    } else {
      RetainedExactly(images, messages, budget, 0);
      CheapSize(images, messages, groups, budget);
    }
  }

  lemma NoGroups(images: ImageCount, budget: nat)
    ensures KeptSize(images, Groups(images, [], budget)) == 0
  {}

  // ---------------------------------------------------------------- tokens lost on an unreadable placeholder

  lemma UnreadableCost(images: ImageCount, u: Message, broken: Message, image: Message)
    requires Placeholder(broken) && images(broken).None? && Placeholder(image) && images(image) == Some(1)
    ensures ImageCost(images, [u, u, broken, image], 1) == Cost(IMAGE_TOKENS, false)
  {
    var messages := [u, u, broken, image];
    hide Placeholder;
    assert RunFrom(messages, 4) == [];
    assert RunFrom(messages, 3) == [image] + [];
    assert RunFrom(messages, 2) == [broken] + [image];
    ReversedGrows(broken, [image]);
    ReversedGrows(image, []);
    NothingReversed();
    assert [image] + [] == [image];
    assert Reversed([broken] + [image]) == [] + [image] + [broken];
    var pending := [image, broken];
    assert [] + [image] + [broken] == pending && pending[1..] == [broken];
    var last := [broken];
    assert PendingCost(images, last) == Cost(0, false);
    assert PendingCost(images, pending) == Cost(IMAGE_TOKENS, false);
  }

  lemma UnreadableLeft(images: ImageCount, u: Message, broken: Message, image: Message)
    requires Eligible(u) && ApproxTokens(Trim(u.content)) == 1
    requires Placeholder(broken) && images(broken).None? && Placeholder(image) && images(image) == Some(1)
    ensures var messages := [u, u, broken, image];
            && LeftAt(images, messages, 2, IMAGE_TOKENS + 1) == IMAGE_TOKENS + 1
            && LeftAt(images, messages, 1, IMAGE_TOKENS + 1) == 0
            && LeftAt(images, messages, 0, IMAGE_TOKENS + 1) == 0
            && Lost(images, messages, 0, IMAGE_TOKENS + 1) == IMAGE_TOKENS
  {
    var messages, budget := [u, u, broken, image], IMAGE_TOKENS + 1;
    UnreadableCost(images, u, broken, image);
    PlaceholderIsNotEligible(broken);
    PlaceholderIsNotEligible(image);
    EligibleIsMessage(u);
    hide Eligible, Placeholder, ImageCost, ApproxTokens, Trim;
    assert LeftAt(images, messages, 4, budget) == budget && Lost(images, messages, 4, budget) == 0;
    assert LeftAt(images, messages, 3, budget) == budget && Lost(images, messages, 3, budget) == 0;
    assert LeftAt(images, messages, 2, budget) == budget && Lost(images, messages, 2, budget) == 0;
    assert LeftAt(images, messages, 1, budget) == 0 && Lost(images, messages, 1, budget) == IMAGE_TOKENS;
  }

  /**
    The images of placeholders read before an unreadable one are charged and then dropped
    with it: here they cost an older message its place although one token in all was charged.
   */
  lemma UnreadableCostsBudget(images: ImageCount, u: Message, broken: Message, image: Message)
    requires Eligible(u) && ApproxTokens(Trim(u.content)) == 1
    requires Placeholder(broken) && images(broken).None? && Placeholder(image) && images(image) == Some(1)
    ensures var messages := [u, u, broken, image];
            var groups := Groups(images, messages, IMAGE_TOKENS + 1);
            && Charged(images, groups) == 1 && Lost(images, messages, 0, IMAGE_TOKENS + 1) == IMAGE_TOKENS
            && !RetainedAt(groups, 0) && RetainedAt(groups, 1)
  {
    hide *;
    var messages, budget := [u, u, broken, image], IMAGE_TOKENS + 1;
    UnreadableLeft(images, u, broken, image);
    RetainedExactly(images, messages, budget, 0);
    RetainedExactly(images, messages, budget, 1);
    DroppedExactly(images, messages, budget, 0);
  }

  // ---------------------------------------------------------------- when tokens can be lost

  /** An image stands behind the newest unreadable placeholder of the run. */
  predicate Wasteful(images: ImageCount, run: Messages)
  {
    exists p :: 0 <= p < |run| && NewestUnreadable(images, run, p) && HasImage(images, run, p + 1)
  }

  predicate NewestUnreadable(images: ImageCount, run: Messages, p: nat)
    requires p < |run|
  {
    images(run[p]).None? && forall q :: p < q < |run| ==> images(run[q]).Some?
  }

  predicate HasImage(images: ImageCount, run: Messages, from: nat)
  {
    exists q :: from <= q < |run| && images(run[q]).Some? && images(run[q]).value > 0
  }

  predicate AllRead(images: ImageCount, run: Messages)
  {
    forall q :: 0 <= q < |run| ==> images(run[q]).Some?
  }

  lemma ReadAhead(images: ImageCount, m: Message, rest: Messages)
    ensures AllRead(images, [m] + rest) <==> images(m).Some? && AllRead(images, rest)
  {
    var run := [m] + rest;
    assert run[0] == m && forall q :: 0 <= q < |rest| ==> run[q + 1] == rest[q];
  }

  /** The cost of a run, read from its end: what makes it readable, and what makes it cost something. */
  predicate Costs(images: ImageCount, run: Messages, cost: Cost)
  {
    && (cost.readable <==> AllRead(images, run))
    && (cost.tokens > 0 <==> if cost.readable then HasImage(images, run, 0) else Wasteful(images, run))
  }

  lemma {:induction false} ReversedCost(images: ImageCount, run: Messages)
    ensures Costs(images, run, PendingCost(images, Reversed(run)))
    decreases |run|
  {
    if run == [] {
      NothingReversed();
      NoCost(images);
    } else {
      var m, rest := run[0], run[1..];
      assert run == [m] + rest;
      ReversedCost(images, rest);
      CostBehind(images, Reversed(rest), m);
      ReversedGrows(m, rest);
      hide *;
      CostsAhead(images, m, rest, PendingCost(images, Reversed(rest)), PendingCost(images, Reversed(run)));
    }
  }

  /** Adding the cost of one placeholder to what has been read before it. */
  function CostAdded(images: ImageCount, cost: Cost, m: Message): Cost
  {
    if !cost.readable then cost
    else if images(m).None? then Cost(cost.tokens, false)
    else Cost(cost.tokens + images(m).value * IMAGE_TOKENS, true)
  }

  lemma CostsAhead(images: ImageCount, m: Message, rest: Messages, cost: Cost, all: Cost)
    requires Costs(images, rest, cost) && all == CostAdded(images, cost, m)
    ensures Costs(images, [m] + rest, all)
  {
    hide HasImage, Wasteful, AllRead;
    ReadAhead(images, m, rest);
    ImageAhead(images, m, rest);
    WasteAhead(images, m, rest);
    if Wasteful(images, rest) {
      WasteIsUnreadable(images, rest);
    }
    if images(m).Some? {
      assert images(m).value > 0 <==> images(m).value * IMAGE_TOKENS > 0;
    }
  }

  /** The cost of a pending list with one older placeholder behind it. */
  lemma {:induction false} CostBehind(images: ImageCount, pending: Messages, m: Message)
    ensures PendingCost(images, pending + [m]) == CostAdded(images, PendingCost(images, pending), m)
    decreases |pending|
  {
    if pending == [] {
      assert pending + [m] == [m] && [m][1..] == [];
    } else {
      assert (pending + [m])[1..] == pending[1..] + [m];
      CostBehind(images, pending[1..], m);
    }
  }

  lemma ImageAhead(images: ImageCount, m: Message, rest: Messages)
    ensures HasImage(images, [m] + rest, 1) <==> HasImage(images, rest, 0)
    ensures HasImage(images, [m] + rest, 0) <==> HasImage(images, rest, 0) || (images(m).Some? && images(m).value > 0)
  {
    var run := [m] + rest;
    if HasImage(images, rest, 0) {
      var q :| 0 <= q < |rest| && images(rest[q]).Some? && images(rest[q]).value > 0;
      assert run[q + 1] == rest[q];
    }
    if HasImage(images, run, 1) {
      var q :| 1 <= q < |run| && images(run[q]).Some? && images(run[q]).value > 0;
      assert rest[q - 1] == run[q];
    }
    if images(m).Some? && images(m).value > 0 {
      assert run[0] == m;
    }
  }

  lemma LaterImage(images: ImageCount, m: Message, rest: Messages, p: nat)
    requires p < |rest|
    ensures NewestUnreadable(images, [m] + rest, p + 1) <==> NewestUnreadable(images, rest, p)
    ensures HasImage(images, [m] + rest, p + 2) <==> HasImage(images, rest, p + 1)
  {
    var run := [m] + rest;
    assert forall q :: 0 <= q < |rest| ==> run[q + 1] == rest[q];
    assert forall q :: 1 <= q < |run| ==> run[q] == rest[q - 1];
    if HasImage(images, rest, p + 1) {
      var q :| p + 1 <= q < |rest| && images(rest[q]).Some? && images(rest[q]).value > 0;
      assert images(run[q + 1]).Some? && images(run[q + 1]).value > 0;
    }
  }

  lemma WasteAhead(images: ImageCount, m: Message, rest: Messages)
    ensures Wasteful(images, [m] + rest) <==>
              || Wasteful(images, rest)
              || (images(m).None? && AllRead(images, rest) && HasImage(images, rest, 0))
  {
    hide HasImage, NewestUnreadable, AllRead;
    var run := [m] + rest;
    NewestFirst(images, m, rest);
    ImageAhead(images, m, rest);
    if Wasteful(images, rest) {
      var p :| 0 <= p < |rest| && NewestUnreadable(images, rest, p) && HasImage(images, rest, p + 1);
      LaterImage(images, m, rest, p);
    }
    if Wasteful(images, run) {
      var p :| 0 <= p < |run| && NewestUnreadable(images, run, p) && HasImage(images, run, p + 1);
      if p > 0 {
        LaterImage(images, m, rest, p - 1);
      }
    }
  }

  lemma NewestFirst(images: ImageCount, m: Message, rest: Messages)
    ensures NewestUnreadable(images, [m] + rest, 0) <==> images(m).None? && AllRead(images, rest)
  {
    var run := [m] + rest;
    assert forall q :: 0 <= q < |rest| ==> run[q + 1] == rest[q];
    assert forall q :: 1 <= q < |run| ==> run[q] == rest[q - 1];
  }

  /** The image tokens of a run can be lost exactly if it is wasteful. */
  lemma WasteMeaning(images: ImageCount, messages: Messages, i: nat)
    requires i < |messages|
    ensures Wasteful(images, RunFrom(messages, i + 1)) <==>
              !ImageCost(images, messages, i).readable && ImageCost(images, messages, i).tokens > 0
  {
    hide PendingCost, Reversed, HasImage, AllRead, Wasteful, RunFrom;
    ReversedCost(images, RunFrom(messages, i + 1));
    if Wasteful(images, RunFrom(messages, i + 1)) {
      WasteIsUnreadable(images, RunFrom(messages, i + 1));
    }
  }

  lemma WasteIsUnreadable(images: ImageCount, run: Messages)
    requires Wasteful(images, run)
    ensures !AllRead(images, run)
  {
    hide HasImage;
    var p :| 0 <= p < |run| && NewestUnreadable(images, run, p) && HasImage(images, run, p + 1);
    assert images(run[p]).None?;
    assert !AllRead(images, run);
  }

  /** Position `i` is eligible and its run wasteful. */
  predicate Wastes(images: ImageCount, messages: Messages, i: nat)
    requires i < |messages|
  {
    Eligible(messages[i]) && Wasteful(images, RunFrom(messages, i + 1))
  }

  lemma {:induction false} LostGrows(images: ImageCount, messages: Messages, n: nat, maxTokens: int)
    requires n <= |messages|
    ensures Lost(images, messages, 0, maxTokens) >= Lost(images, messages, n, maxTokens)
    decreases n
  {
    hide Eligible, Taken, ImageCost, LeftAt;
    if n > 0 {
      LostGrows(images, messages, n - 1, maxTokens);
    }
  }

  /** Tokens are lost at a position that is reached and wasteful. */
  lemma {:induction false} LostSomewhere(images: ImageCount, messages: Messages, n: nat, maxTokens: int) returns (i: nat)
    requires n <= |messages| && Lost(images, messages, n, maxTokens) > 0
    ensures n <= i < |messages| && LeftAt(images, messages, i + 1, maxTokens) > 0 && Wastes(images, messages, i)
    decreases |messages| - n
  {
    hide Eligible, ImageCost, LeftAt, Wasteful, RunFrom;
    if Lost(images, messages, n + 1, maxTokens) > 0 {
      i := LostSomewhere(images, messages, n + 1, maxTokens);
    } else {
      i := n;
      WasteMeaning(images, messages, n);
    }
  }

  /** A budget on which the images of a wasteful run are lost and nothing is left for older messages. */
  lemma WasteUsesUp(images: ImageCount, messages: Messages, i: nat) returns (budget: nat)
    requires i < |messages| && Wastes(images, messages, i)
    ensures Lost(images, messages, 0, budget) > 0 && LeftAt(images, messages, i, budget) == 0
  {
    hide Eligible, ImageCost, Wasteful, RunFrom, Content, ApproxTokens;
    var tokens := ImageCost(images, messages, i).tokens;
    budget := FullCharge(images, messages, i + 1, |messages|) + tokens + 1;
    WasteMeaning(images, messages, i);
    EligibleHasText(messages, i);
    ExactBudget(images, messages, i + 1, i + 1, tokens + 1);
    assert FullCharge(images, messages, i + 1, i + 1) == 0;
    LostGrows(images, messages, i, budget);
  }

  /** No budget loses a token if and only if no eligible message has a wasteful run. */
  lemma LosesExactly(images: ImageCount, messages: Messages)
    ensures (forall budget: nat :: Lost(images, messages, 0, budget) == 0) <==>
              (forall i :: 0 <= i < |messages| ==> !Wastes(images, messages, i))
  {
    hide Lost, Wastes, LeftAt;
    if i :| 0 <= i < |messages| && Wastes(images, messages, i) {
      var budget := WasteUsesUp(images, messages, i);
    }
    if budget: nat :| Lost(images, messages, 0, budget) != 0 {
      var i := LostSomewhere(images, messages, 0, budget);
    }
  }

  /** Position `k` is dropped although less than the budget is charged. */
  ghost predicate DroppedEarly(images: ImageCount, messages: Messages, k: nat, budget: nat)
  {
    var groups := Groups(images, messages, budget);
    !RetainedAt(groups, k) && Charged(images, groups) < budget
  }

  /**
    An eligible message can be dropped although less than the budget is charged, on some
    budget, if and only if an image stands behind the newest unreadable placeholder of a
    newer eligible message.
   */
  lemma DroppedEarlyExactly(images: ImageCount, messages: Messages, k: nat)
    requires k < |messages| && Eligible(messages[k])
    ensures (exists budget: nat :: DroppedEarly(images, messages, k, budget)) <==>
              (exists i :: k < i < |messages| && Wastes(images, messages, i))
  {
    hide Groups, RetainedAt, Charged, Lost, Wastes, LeftAt, AllKept, Eligible;
    if i :| k < i < |messages| && Wastes(images, messages, i) {
      var budget := WasteUsesUp(images, messages, i);
      SpentStaysSpent(images, messages, k + 1, i, budget);
      RetainedExactly(images, messages, budget, k);
      DroppedExactly(images, messages, budget, k);
      assert DroppedEarly(images, messages, k, budget);
    }
    if budget: nat :| DroppedEarly(images, messages, k, budget) {
      DroppedExactly(images, messages, budget, k);
      RetainedExactly(images, messages, budget, k);
      var i := LostSomewhere(images, messages, 0, budget);
      if i <= k {
        SpentStaysSpent(images, messages, i + 1, k + 1, budget);
        assert false;
      }
    }
  }

  // ---------------------------------------------------------------- the budget

  /** projectEinoAssistantCompactionUserTokenBudget, from the token counts it adds up. */
  function UserTokenBudget(contextTokens: nat, canonicalTokens: nat, schemaTokens: int, summaryTokens: nat): nat
  {
    var reserve := contextTokens * RESERVE_PERCENT / 100;
    var overhead := canonicalTokens + (if schemaTokens > 0 then schemaTokens else 0) + summaryTokens;
    if contextTokens - reserve - overhead > 0 then contextTokens - reserve - overhead else 0
  }

  /**
    Whatever is retained, the charged total of a compacted request leaves the reserve of a
    quarter of the window free, unless the fixed parts alone already use it.
   */
  lemma CompactedRequestFits(
    images: ImageCount, messages: Messages,
    contextTokens: nat, canonicalTokens: nat, schemaTokens: int, summaryTokens: nat)
    ensures var fixed := canonicalTokens + (if schemaTokens > 0 then schemaTokens else 0) + summaryTokens;
            var budget := UserTokenBudget(contextTokens, canonicalTokens, schemaTokens, summaryTokens);
            var reserve := contextTokens * RESERVE_PERCENT / 100;
            var kept := Charged(images, Groups(images, messages, budget));
            fixed + kept + reserve <= contextTokens || (kept == 0 && budget == 0)
  {
    hide Groups, Charged;
    var budget := UserTokenBudget(contextTokens, canonicalTokens, schemaTokens, summaryTokens);
    RetentionIsSound(images, messages, budget);
  }
}
