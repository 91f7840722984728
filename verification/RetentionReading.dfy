/**
  What a compaction retains, on the fields of the messages: who is eligible, what the images
  behind a message cost, how a text is cut, and what is left of the budget.
 */
module RetentionReading {
  import opened Wrappers
  import opened Text
  import opened Chat
  import opened ModelMessages
  import opened CompactionRetention

  /** A user's own words: no placeholder, no summary, no evidence. */
  predicate OwnWords(m: Message)
  {
    && m.Message? && m.role == User && !m.marks.historical
    && Trim(m.content) != "" && !(SUMMARY_PREAMBLE <= Trim(m.content))
    && !(SYNTHETIC_KIND_KEY in m.extra && m.extra[SYNTHETIC_KIND_KEY] == MUTATION_EVIDENCE)
  }

  lemma EligibleIs(m: Message)
    ensures Eligible(m) <==> OwnWords(m)
  {
    hide Trim;
  }

  // ---------------------------------------------------------------- the images behind a message

  /** Positions `lo` to `hi` are all the placeholders in a row from `lo` on. */
  predicate RunOf(messages: Messages, lo: nat, hi: nat)
  {
    && lo <= hi <= |messages| && (forall k :: lo <= k < hi ==> messages[k].Message? && messages[k].marks.historical)
    && !(hi < |messages| && messages[hi].Message? && messages[hi].marks.historical)
  }

  /** Images of a run, counted from its end up to the first placeholder that cannot be read. */
  function CountBack(images: ImageCount, messages: Messages, lo: nat, hi: nat): nat
    requires lo <= hi <= |messages|
  {
    if lo == hi then 0
    else match images(messages[hi - 1]) case None => 0 case Some(n) => n + CountBack(images, messages, lo, hi - 1)
  }

  predicate AllReadIn(images: ImageCount, messages: Messages, lo: nat, hi: nat)
    requires lo <= hi <= |messages|
  {
    forall k :: lo <= k < hi ==> images(messages[k]).Some?
  }

  lemma {:induction false} RunIs(messages: Messages, lo: nat, hi: nat)
    requires RunOf(messages, lo, hi)
    ensures RunFrom(messages, lo) == messages[lo..hi]
    decreases hi - lo
  {
    if lo < hi {
      RunIs(messages, lo + 1, hi);
      assert messages[lo..hi] == [messages[lo]] + messages[lo + 1..hi];
    }
  }

  lemma RunBounds(messages: Messages, lo: nat, hi: nat)
    requires RunOf(messages, lo, hi)
    ensures lo <= hi <= |messages|
  {}

  lemma {:induction false} ReversedSnoc(rest: Messages, last: Message)
    ensures Reversed(rest + [last]) == [last] + Reversed(rest)
  {
    if rest == [] {
      NothingReversed();
      assert rest + [last] == [last] && [last][1..] == [];
    } else {
      assert (rest + [last])[1..] == rest[1..] + [last];
      ReversedSnoc(rest[1..], last);
    }
  }

  lemma CostHead(images: ImageCount, m: Message, older: Messages)
    ensures PendingCost(images, [m] + older)
         == match images(m)
            case None => Cost(0, false)
            case Some(n) => Cost(n * IMAGE_TOKENS + PendingCost(images, older).tokens, PendingCost(images, older).readable)
  {
    assert ([m] + older)[1..] == older;
  }

  lemma {:induction false} CostOfRun(images: ImageCount, messages: Messages, lo: nat, hi: nat)
    requires lo <= hi <= |messages|
    ensures var cost := PendingCost(images, Reversed(messages[lo..hi]));
            cost.tokens == 4096 * CountBack(images, messages, lo, hi)
            && (cost.readable <==> AllReadIn(images, messages, lo, hi))
    decreases hi - lo
  {
    hide PendingCost, Reversed;
    if lo == hi {
      NothingReversed();
      NoCost(images);
      assert messages[lo..hi] == [];
    } else {
      var last, rest := messages[hi - 1], messages[lo..hi - 1];
      CostOfRun(images, messages, lo, hi - 1);
      assert messages[lo..hi] == rest + [last];
      ReversedSnoc(rest, last);
      CostHead(images, last, Reversed(rest));
    }
  }

  lemma ImageCostIs(images: ImageCount, messages: Messages, i: nat, hi: nat)
    requires i < |messages| && RunOf(messages, i + 1, hi)
    ensures ImageCost(images, messages, i).tokens == 4096 * CountBack(images, messages, i + 1, hi)
    ensures ImageCost(images, messages, i).readable <==> AllReadIn(images, messages, i + 1, hi)
  {
    hide PendingCost, Reversed, RunFrom, AllReadIn;
    RunIs(messages, i + 1, hi);
    CostOfRun(images, messages, i + 1, hi);
  }

  // ---------------------------------------------------------------- what is left

  function Tokens(text: string): nat { if |text| % 4 == 0 then |text| / 4 else |text| / 4 + 1 }

  lemma TokensIs(text: string)
    ensures ApproxTokens(text) == Tokens(text)
  {}

  /** What is left when a message with `cost` image tokens and this text has been served from `remaining`. */
  function Served(remaining: nat, cost: nat, text: nat): nat
  {
    var left := if cost < remaining then remaining - cost else remaining;
    if text < left then left - text else 0
  }

  /**
    What is left of the budget, from the newest message backwards: own words take four
    characters a token and, if they can be paid, 4096 tokens for each image behind them;
    nothing else takes anything.
   */
  lemma LeftByFields(images: ImageCount, messages: Messages, n: nat, maxTokens: nat, hi: nat)
    requires n < |messages| && RunOf(messages, n + 1, hi)
    ensures LeftAt(images, messages, |messages|, maxTokens) == maxTokens
    ensures var before, after := LeftAt(images, messages, n + 1, maxTokens), LeftAt(images, messages, n, maxTokens);
            && before >= 0
            && after == if OwnWords(messages[n])
                        then Served(before, 4096 * CountBack(images, messages, n + 1, hi), Tokens(Trim(messages[n].content)))
                        else before
  {
    hide Trim, ImageCost, CountBack, RunOf, ApproxTokens, Tokens;
    LeftIsNat(images, messages, n + 1, maxTokens);
    EligibleIs(messages[n]);
    hide Eligible;
    ImageCostIs(images, messages, n, hi);
    if messages[n].Message? {
      TokensIs(Trim(messages[n].content));
    }
  }

  // ---------------------------------------------------------------- what is kept

  /** The text cut to so many tokens: its beginning and the marker, or the beginning of the marker. */
  predicate CutTo(text: string, tokens: nat, r: string)
  {
    && |text| > 4 * tokens
    && (if |TRUNCATION_MARKER| < 4 * tokens
        then r == text[..4 * tokens - |TRUNCATION_MARKER|] + TRUNCATION_MARKER
        else r == TRUNCATION_MARKER[..4 * tokens])
  }

  lemma CutIs(text: string, tokens: nat)
    requires tokens > 0 && Tokens(text) > tokens
    ensures CutTo(text, tokens, Truncate(text, tokens))
  {}

  /**
    A retained message: own words, whole with their padding if their trimmed text fits behind
    the images, else a plain user message with the text cut to what is left; and behind it the
    whole run of its placeholders, if all can be read and cost less than what remained.
   */
  predicate RetainedAs(images: ImageCount, messages: Messages, g: Group, remaining: nat, hi: nat)
    requires g.index < |messages| && RunOf(messages, g.index + 1, hi)
  {
    var m, cost := messages[g.index], 4096 * CountBack(images, messages, g.index + 1, hi);
    var left := if cost < remaining then remaining - cost else remaining;
    && OwnWords(m) && remaining > 0
    && (if Tokens(Trim(m.content)) <= left then g.retained == m
        else g.retained.Message? && CutTo(Trim(m.content), left, g.retained.content)
             && g.retained == Message(User, g.retained.content, "", "", "", [], map[], NO_MARKS, []))
    && g.placeholders == if cost < remaining && AllReadIn(images, messages, g.index + 1, hi)
                         then messages[g.index + 1..hi] else []
  }

  lemma KeptIs(images: ImageCount, messages: Messages, g: Group, remaining: int, hi: nat)
    requires KeptAs(images, messages, g, remaining) && RunOf(messages, g.index + 1, hi)
    ensures remaining > 0 && RetainedAs(images, messages, g, remaining, hi)
  {
    hide Trim, ImageCost, CountBack, RunOf, ApproxTokens, Tokens, Truncate, RunFrom, CutTo, AllReadIn;
    EligibleIs(messages[g.index]);
    hide Eligible;
    ImageCostIs(images, messages, g.index, hi);
    RunIs(messages, g.index + 1, hi);
    RunBounds(messages, g.index + 1, hi);
    var text := Trim(messages[g.index].content);
    TokensIs(text);
    var cost := 4096 * CountBack(images, messages, g.index + 1, hi);
    var left: nat := if cost < remaining then remaining - cost else remaining;
    if Tokens(text) > left {
      CutIs(text, left);
    }
  }

  /** Exactly the own words that newer ones left some budget are retained, each as its fields and its images say. */
  lemma RetainedByFields(images: ImageCount, messages: Messages, maxTokens: nat, i: nat, hi: nat)
    requires i < |messages| && RunOf(messages, i + 1, hi)
    ensures var groups, left := Groups(images, messages, maxTokens), LeftAt(images, messages, i + 1, maxTokens);
            && ((exists k :: 0 <= k < |groups| && groups[k].index == i) <==> OwnWords(messages[i]) && left > 0)
            && (forall k :: 0 <= k < |groups| && groups[k].index == i ==>
                  left > 0 && RetainedAs(images, messages, groups[k], left, hi))
  {
    hide Groups, LeftAt, Eligible, OwnWords, RunOf, RetainedAs, KeptAs;
    EligibleIs(messages[i]);
    RetainedExactly(images, messages, maxTokens, i);
    var groups := Groups(images, messages, maxTokens);
    forall k | 0 <= k < |groups| && groups[k].index == i
      ensures LeftAt(images, messages, i + 1, maxTokens) > 0
      ensures RetainedAs(images, messages, groups[k], LeftAt(images, messages, i + 1, maxTokens), hi)
    {
      KeptIs(images, messages, groups[k], LeftAt(images, messages, i + 1, maxTokens), hi);
    }
  }

  /** The budget is what the window has left beside a quarter of it and the fixed parts, or nothing. */
  lemma BudgetIsTheRest(contextTokens: nat, canonicalTokens: nat, schemaTokens: int, summaryTokens: nat)
    ensures var budget := UserTokenBudget(contextTokens, canonicalTokens, schemaTokens, summaryTokens);
            var fixed := canonicalTokens + summaryTokens + (if schemaTokens > 0 then schemaTokens else 0);
            var reserve := contextTokens * 25 / 100;
            if fixed + reserve <= contextTokens then fixed + reserve + budget == contextTokens else budget == 0
  {}
}
