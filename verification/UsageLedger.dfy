/**
  The usage side of the run audit: token counts and byte counts that stay truthful while
  detail rows and the de-duplication window are bounded.
 */
module UsageLedger {
  import opened Wrappers
  import opened Sets

  /** projectAssistantAuditMaxUsageDedupe and projectAssistantAuditMaxModelCalls. */
  const MAX_DEDUPE: nat := 64
  const MAX_CALLS: nat := 32

  datatype Usage = Usage(prompt: int, cached: int, completion: int, total: int)

  const NO_USAGE := Usage(0, 0, 0, 0)

  function Plus(a: Usage, b: Usage): Usage
  {
    Usage(a.prompt + b.prompt, a.cached + b.cached, a.completion + b.completion, a.total + b.total)
  }

  function Minus(a: Usage, b: Usage): Usage
  {
    Usage(a.prompt - b.prompt, a.cached - b.cached, a.completion - b.completion, a.total - b.total)
  }

  // ---------------------------------------------------------------- the bounded ledger

  datatype Ledger = Ledger(
    usage: map<int, Usage>, missing: set<int>, floor: int, tokens: Usage, missingCalls: int)

  const EMPTY := Ledger(map[], {}, 0, NO_USAGE, 0)

  /** One callback of the model: the ordinal of a call, with or without usage metadata. */
  datatype Callback = Callback(ordinal: int, usage: Option<Usage>)

  function Keys(l: Ledger): set<int> { l.usage.Keys + l.missing }

  ghost predicate Least(s: set<int>, m: int) { m in s && forall k :: k in s ==> m <= k }

  lemma {:induction false} HasLeast(s: set<int>)
    requires s != {}
    ensures exists m :: Least(s, m)
    decreases |s|
  {
    var x := Pick(s);
    if s == {x} {
      assert Least(s, x);
    } else {
      HasLeast(s - {x});
      var m :| Least(s - {x}, m);
      var least := if x < m then x else m;
      forall k | k in s
        ensures least <= k
      {
        assert k == x || k in s - {x};
      }
      assert Least(s, least);
    }
  }

  ghost function Oldest(s: set<int>): (m: int)
    requires s != {}
    ensures Least(s, m)
  {
    HasLeast(s);
    var m :| Least(s, m);
    m
  }

  /** Forgets one ordinal; its counts stay in the totals. */
  function Evict(l: Ledger, oldest: int): Ledger
  {
    l.(usage := l.usage - {oldest}, missing := l.missing - {oldest},
       floor := if l.floor > oldest then l.floor else oldest)
  }

  function Entries(l: Ledger): nat { |l.usage| + |l.missing| }

  /** trimUsageDedupeLocked. */
  ghost function Trim(l: Ledger): Ledger
    decreases Entries(l)
  {
    if Entries(l) <= MAX_DEDUPE then l
    else
      EntriesNonEmpty(l);
      var oldest := Oldest(Keys(l));
      EvictShrinks(l, oldest);
      Trim(Evict(l, oldest))
  }

  lemma EntriesNonEmpty(l: Ledger)
    requires Entries(l) > 0
    ensures Keys(l) != {}
  {
    if l.usage.Keys == {} {
      assert |l.usage| == |l.usage.Keys|;
    }
  }

  lemma EvictKeys(l: Ledger, k: int)
    ensures Evict(l, k).usage.Keys == l.usage.Keys - {k} && Evict(l, k).missing == l.missing - {k}
    ensures Keys(Evict(l, k)) == Keys(l) - {k}
    ensures k in Keys(l) <==> k in l.usage.Keys || k in l.missing
  {}

  lemma EvictShrinks(l: Ledger, k: int)
    requires k in Keys(l)
    ensures Entries(Evict(l, k)) < Entries(l)
    ensures Keys(Evict(l, k)) == Keys(l) - {k}
  {
    EvictKeys(l, k);
    var e := Evict(l, k);
    hide Keys, Evict;
    SizeWithout(l.usage.Keys, k);
    SizeWithout(l.missing, k);
    MapSize(e.usage);
    MapSize(l.usage);
  }

  lemma MapSize(m: map<int, Usage>)
    ensures |m| == |m.Keys|
  {}

  predicate Fresh(l: Ledger, c: Callback) { c.ordinal > 0 && c.ordinal > l.floor }

  /** The effect of one accepted callback before the window is trimmed. */
  function Accept(l: Ledger, c: Callback): Ledger
  {
    match c.usage
    case None =>
      if c.ordinal in l.usage || c.ordinal in l.missing then l
      else l.(missing := l.missing + {c.ordinal}, missingCalls := l.missingCalls + 1)
    case Some(u) =>
      var previous := if c.ordinal in l.usage then l.usage[c.ordinal] else NO_USAGE;
      var counted := c.ordinal in l.missing;
      l.(tokens := Plus(l.tokens, Minus(u, previous)),
         usage := l.usage[c.ordinal := u],
         missing := l.missing - {c.ordinal},
         missingCalls := if counted && l.missingCalls > 0 then l.missingCalls - 1 else l.missingCalls)
  }

  /** A callback without usage for an ordinal that is already accounted for. */
  predicate Redundant(l: Ledger, c: Callback)
  {
    c.usage.None? && (c.ordinal in l.usage || c.ordinal in l.missing)
  }

  /** recordModelUsageLocked. */
  ghost function Record(l: Ledger, c: Callback): Ledger
  {
    if !Fresh(l, c) || Redundant(l, c) then l else Trim(Accept(l, c))
  }

  ghost function Run(callbacks: seq<Callback>): Ledger
  {
    if callbacks == [] then EMPTY
    else Record(Run(callbacks[..|callbacks| - 1]), callbacks[|callbacks| - 1])
  }

  // ---------------------------------------------------------------- the uncapped reading

  /** The callbacks that arrived while their ordinal was still above the floor. */
  ghost function Accepted(callbacks: seq<Callback>): seq<Callback>
  {
    if callbacks == [] then []
    else
      var init, last := callbacks[..|callbacks| - 1], callbacks[|callbacks| - 1];
      Accepted(init) + (if Fresh(Run(init), last) then [last] else [])
  }

  /** The ordinals any callback mentioned. */
  function Seen(callbacks: seq<Callback>): set<int>
  {
    if callbacks == [] then {}
    else Seen(callbacks[..|callbacks| - 1]) + {callbacks[|callbacks| - 1].ordinal}
  }

  /** The ordinals for which usage was reported. */
  function Reporters(callbacks: seq<Callback>): set<int>
  {
    if callbacks == [] then {}
    else
      Reporters(callbacks[..|callbacks| - 1])
      + (if callbacks[|callbacks| - 1].usage.Some? then {callbacks[|callbacks| - 1].ordinal} else {})
  }

  /** The usage last reported for an ordinal, zero when there is none. */
  function LastUsage(callbacks: seq<Callback>, ordinal: int): Usage
  {
    if callbacks == [] then NO_USAGE
    else
      var last := callbacks[|callbacks| - 1];
      if last.ordinal == ordinal && last.usage.Some? then last.usage.value
      else LastUsage(callbacks[..|callbacks| - 1], ordinal)
  }

  ghost function Sum(ordinals: set<int>, callbacks: seq<Callback>): Usage
    decreases |ordinals|
  {
    if ordinals == {} then NO_USAGE
    else
      var o := Oldest(ordinals);
      Plus(LastUsage(callbacks, o), Sum(ordinals - {o}, callbacks))
  }

  /** The ordinals above a floor. */
  function Above(ordinals: set<int>, floor: int): set<int>
  {
    set o | o in ordinals && o > floor
  }

  /** The ordinals that were seen but never reported usage. */
  function Silent(callbacks: seq<Callback>): set<int> { Seen(callbacks) - Reporters(callbacks) }

  /** Everything the bounded ledger still says about the callbacks it accepted. */
  ghost predicate Truthful(l: Ledger, accepted: seq<Callback>)
  {
    && l.tokens == Sum(Reporters(accepted), accepted)
    && l.missingCalls == |Silent(accepted)|
    && l.usage.Keys == Above(Reporters(accepted), l.floor)
    && l.missing == Above(Silent(accepted), l.floor)
    && forall o :: o in l.usage ==> l.usage[o] == LastUsage(accepted, o)
  }

  ghost predicate Bounded(l: Ledger)
  {
    && Entries(l) <= MAX_DEDUPE && l.floor >= 0
    && forall o :: o in Keys(l) ==> o > l.floor
  }

  // ---------------------------------------------------------------- sums

  /** A sum may be taken apart at any of its ordinals. */
  lemma {:induction false} SumAt(ordinals: set<int>, callbacks: seq<Callback>, o: int)
    requires o in ordinals
    ensures Sum(ordinals, callbacks) == Plus(LastUsage(callbacks, o), Sum(ordinals - {o}, callbacks))
    decreases |ordinals|
  {
    var m := Oldest(ordinals);
    if m != o {
      hide LastUsage;
      SumAt(ordinals - {m}, callbacks, o);
      SumAt(ordinals - {o}, callbacks, m);
      assert ordinals - {m} - {o} == ordinals - {o} - {m};
    }
  }

  /** Only the reporting ordinal's own summand changes. */
  lemma {:induction false} SumElsewhere(ordinals: set<int>, callbacks: seq<Callback>, c: Callback)
    requires c.usage.None? || c.ordinal !in ordinals
    ensures Sum(ordinals, callbacks + [c]) == Sum(ordinals, callbacks)
    decreases |ordinals|
  {
    if ordinals != {} {
      var m := Oldest(ordinals);
      assert (callbacks + [c])[..|callbacks|] == callbacks;
      SumElsewhere(ordinals - {m}, callbacks, c);
    }
  }

  lemma AppendCallback(callbacks: seq<Callback>, c: Callback)
    ensures Seen(callbacks + [c]) == Seen(callbacks) + {c.ordinal}
    ensures Reporters(callbacks + [c]) == Reporters(callbacks) + (if c.usage.Some? then {c.ordinal} else {})
    ensures forall o :: (LastUsage(callbacks + [c], o)
         == if o == c.ordinal && c.usage.Some? then c.usage.value else LastUsage(callbacks, o))
  {
    assert (callbacks + [c])[..|callbacks|] == callbacks;
  }

  lemma {:induction false} NonReporter(callbacks: seq<Callback>, o: int)
    requires o !in Reporters(callbacks)
    ensures LastUsage(callbacks, o) == NO_USAGE
  {
    if callbacks != [] {
      NonReporter(callbacks[..|callbacks| - 1], o);
    }
  }

  lemma {:induction false} ReportersSeen(callbacks: seq<Callback>)
    ensures Reporters(callbacks) <= Seen(callbacks)
  {
    if callbacks != [] {
      ReportersSeen(callbacks[..|callbacks| - 1]);
    }
  }

  /** One more report replaces the ordinal's previous one in the sum. */
  lemma ReportSum(callbacks: seq<Callback>, c: Callback)
    requires c.usage.Some?
    ensures Sum(Reporters(callbacks + [c]), callbacks + [c])
         == Plus(Sum(Reporters(callbacks), callbacks), Minus(c.usage.value, LastUsage(callbacks, c.ordinal)))
  {
    hide Sum, LastUsage, Reporters;
    var now := callbacks + [c];
    var before, after := Reporters(callbacks), Reporters(now);
    AppendCallback(callbacks, c);
    SumAt(after, now, c.ordinal);
    assert after - {c.ordinal} == before - {c.ordinal};
    SumElsewhere(before - {c.ordinal}, callbacks, c);
    if c.ordinal in before {
      SumAt(before, callbacks, c.ordinal);
    } else {
      NonReporter(callbacks, c.ordinal);
      assert before - {c.ordinal} == before;
    }
  }

  // ---------------------------------------------------------------- the ledger tells the truth

  lemma AcceptMissing(l: Ledger, accepted: seq<Callback>, c: Callback)
    requires Truthful(l, accepted) && Fresh(l, c) && c.usage.None?
    ensures Truthful(Accept(l, c), accepted + [c])
  {
    hide Sum, LastUsage, Reporters, Seen, Silent;
    AppendCallback(accepted, c);
    SumElsewhere(Reporters(accepted), accepted, c);
    SilentGrows(accepted, c);
    assert Reporters(accepted + [c]) == Reporters(accepted);
    MissingKeys(l, Reporters(accepted), Silent(accepted), c.ordinal);
  }

  lemma MissingKeys(l: Ledger, reporters: set<int>, silent: set<int>, o: int)
    requires l.usage.Keys == Above(reporters, l.floor) && l.missing == Above(silent, l.floor) && o > l.floor
    ensures o in l.usage <==> o in reporters
    ensures o in l.missing <==> o in silent
    ensures l.missing + {o} == Above(silent + {o}, l.floor)
    ensures |silent + {o}| == if o in silent then |silent| else |silent| + 1
    ensures o in silent ==> silent + {o} == silent
  {
    SizeWith(silent, o);
  }

  lemma SilentGrows(accepted: seq<Callback>, c: Callback)
    ensures Silent(accepted + [c])
         == if c.usage.Some? then Silent(accepted) - {c.ordinal}
            else if c.ordinal in Reporters(accepted) then Silent(accepted)
            else Silent(accepted) + {c.ordinal}
  {
    hide LastUsage;
    AppendCallback(accepted, c);
    ReportersSeen(accepted);
    hide Reporters, Seen;
  }

  lemma AcceptReport(l: Ledger, accepted: seq<Callback>, c: Callback)
    requires Truthful(l, accepted) && Fresh(l, c) && c.usage.Some?
    ensures Truthful(Accept(l, c), accepted + [c])
  {
    hide Sum, LastUsage, Reporters, Seen, Silent;
    AppendCallback(accepted, c);
    SilentGrows(accepted, c);
    ReportSum(accepted, c);
    NonReporterMaybe(accepted, c.ordinal);
    ReportKeys(l, Reporters(accepted), Silent(accepted), c.ordinal);
    var next := Accept(l, c);
    assert next.usage.Keys == l.usage.Keys + {c.ordinal};
  }

  lemma NonReporterMaybe(callbacks: seq<Callback>, o: int)
    ensures o !in Reporters(callbacks) ==> LastUsage(callbacks, o) == NO_USAGE
  {
    if o !in Reporters(callbacks) {
      NonReporter(callbacks, o);
    }
  }

  lemma ReportKeys(l: Ledger, reporters: set<int>, silent: set<int>, o: int)
    requires l.usage.Keys == Above(reporters, l.floor) && l.missing == Above(silent, l.floor) && o > l.floor
    ensures l.usage.Keys + {o} == Above(reporters + {o}, l.floor)
    ensures l.missing - {o} == Above(silent - {o}, l.floor)
    ensures o in l.usage.Keys <==> o in reporters
    ensures o in l.missing <==> o in silent
    ensures |silent - {o}| == if o in silent then |silent| - 1 else |silent|
    ensures o in silent ==> |silent| > 0
  {
    SizeWithout(silent, o);
  }

  /** Forgetting the oldest ordinal keeps what is said about the newer ones. */
  lemma EvictTruthful(l: Ledger, accepted: seq<Callback>, oldest: int)
    requires Truthful(l, accepted) && Least(Keys(l), oldest) && oldest > l.floor
    ensures Truthful(Evict(l, oldest), accepted) && Evict(l, oldest).floor == oldest
    ensures forall o :: o in Keys(Evict(l, oldest)) ==> o > oldest
  {
    hide Sum, LastUsage, Reporters, Seen, Silent;
    var e := Evict(l, oldest);
    assert e.usage.Keys == l.usage.Keys - {oldest};
  }

  lemma {:induction false} TrimTruthful(l: Ledger, accepted: seq<Callback>)
    requires Truthful(l, accepted) && l.floor >= 0
    requires forall o :: o in Keys(l) ==> o > l.floor
    ensures Truthful(Trim(l), accepted) && Bounded(Trim(l))
    ensures Trim(l).floor == l.floor
            || (MAX_DEDUPE <= |Above(Seen(accepted), Trim(l).floor)| && Trim(l).floor in Seen(accepted))
    decreases Entries(l)
  {
    hide Truthful, Evict, Above, Seen, Keys, Least;
    if Entries(l) > MAX_DEDUPE {
      EntriesNonEmpty(l);
      var oldest := Oldest(Keys(l));
      var e := Evict(l, oldest);
      LeastIn(Keys(l), oldest);
      EvictShrinks(l, oldest);
      EvictTruthful(l, accepted, oldest);
      EvictedLeavesWindow(l, accepted, oldest);
      TrimTruthful(e, accepted);
    }
  }

  lemma LeastIn(s: set<int>, m: int)
    requires Least(s, m)
    ensures m in s
  {}

  /** Whenever a seen ordinal is evicted, at least 64 others are newer. */
  lemma EvictedLeavesWindow(l: Ledger, accepted: seq<Callback>, oldest: int)
    requires Entries(l) > MAX_DEDUPE && Truthful(l, accepted) && Least(Keys(l), oldest)
    ensures MAX_DEDUPE <= |Above(Seen(accepted), oldest)| && oldest in Seen(accepted)
  {
    hide Truthful, Entries, Seen;
    ReportersSeen(accepted);
    KeysAreSeen(l, accepted);
    KeyCount(l, accepted);
    var rest := Keys(l) - {oldest};
    SizeWithout(Keys(l), oldest);
    assert rest <= Above(Seen(accepted), oldest);
    SubsetSize(rest, Above(Seen(accepted), oldest));
  }

  lemma KeysAreSeen(l: Ledger, accepted: seq<Callback>)
    requires Truthful(l, accepted) && Reporters(accepted) <= Seen(accepted)
    ensures Keys(l) <= Seen(accepted) && l.usage.Keys !! l.missing
  {
    hide Sum, LastUsage, Reporters, Seen;
  }

  lemma KeyCount(l: Ledger, accepted: seq<Callback>)
    requires l.usage.Keys !! l.missing
    ensures |Keys(l)| == Entries(l)
  {
    assert |l.usage| == |l.usage.Keys|;
  }

  /** The floor is the last ordinal that was evicted, and the window covers the 64 newest. */
  ghost predicate WindowFull(l: Ledger, accepted: seq<Callback>)
  {
    l.floor > 0 ==> MAX_DEDUPE <= |Above(Seen(accepted), l.floor)| && l.floor in Seen(accepted)
  }

  /**
    For any order and repetition of callbacks: token totals are the sum, over the ordinals
    reported, of the last usage accepted for each; the missing count is the number of
    ordinals seen without usage; and the two maps hold exactly the ordinals above the floor.
   */
  lemma {:induction false} LedgerTruth(callbacks: seq<Callback>)
    ensures Truthful(Run(callbacks), Accepted(callbacks))
    ensures Bounded(Run(callbacks)) && WindowFull(Run(callbacks), Accepted(callbacks))
  {
    if callbacks == [] {
    } else {
      var init, last := callbacks[..|callbacks| - 1], callbacks[|callbacks| - 1];
      LedgerTruth(init);
      hide Run, Accepted, Truthful, Bounded, WindowFull, Trim, Accept;
      RunStep(callbacks);
      if Fresh(Run(init), last) {
        RecordTruth(Run(init), Accepted(init), last);
      } else {
        assert Accepted(init) + [] == Accepted(init);
      }
    }
  }

  lemma RunStep(callbacks: seq<Callback>)
    requires callbacks != []
    ensures var init, last := callbacks[..|callbacks| - 1], callbacks[|callbacks| - 1];
            && Run(callbacks) == Record(Run(init), last)
            && Accepted(callbacks) == Accepted(init) + (if Fresh(Run(init), last) then [last] else [])
  {}

  lemma RecordTruth(l: Ledger, accepted: seq<Callback>, c: Callback)
    requires Truthful(l, accepted) && Bounded(l) && WindowFull(l, accepted) && Fresh(l, c)
    ensures Truthful(Record(l, c), accepted + [c]) && Bounded(Record(l, c))
    ensures WindowFull(Record(l, c), accepted + [c])
  {
    var next := Accept(l, c);
    AcceptKeys(l, c);
    hide Accept, Truthful, Trim, Seen;
    if c.usage.None? {
      AcceptMissing(l, accepted, c);
    } else {
      AcceptReport(l, accepted, c);
    }
    if !Redundant(l, c) {
      TrimTruthful(next, accepted + [c]);
    }
    AppendCallback(accepted, c);
    SubsetSize(Above(Seen(accepted), l.floor), Above(Seen(accepted + [c]), l.floor));
  }

  lemma AcceptKeys(l: Ledger, c: Callback)
    ensures Keys(Accept(l, c)) == Keys(l) + {c.ordinal} && Accept(l, c).floor == l.floor
    ensures Redundant(l, c) ==> Accept(l, c) == l
  {}

  /** The ledger remembers every seen ordinal above its floor, so there are at most 64 of them. */
  lemma SeenAboveFloor(l: Ledger, accepted: seq<Callback>)
    requires Truthful(l, accepted) && Bounded(l)
    ensures |Above(Seen(accepted), l.floor)| <= MAX_DEDUPE
  {
    hide Truthful, Entries, Seen, Above, Keys;
    ReportersSeen(accepted);
    KeysAreSeen(l, accepted);
    KeyCount(l, accepted);
    KeysAboveFloor(l, accepted);
  }

  lemma KeysAboveFloor(l: Ledger, accepted: seq<Callback>)
    requires Truthful(l, accepted) && Reporters(accepted) <= Seen(accepted)
    ensures Above(Seen(accepted), l.floor) == Keys(l)
  {
    hide Seen, Reporters, Sum, LastUsage;
  }

  /** Whether at most 64 of the seen ordinals are as new as a given one. */
  predicate Recent(seen: set<int>, ordinal: int)
  {
    ordinal > 0 && |Above(seen, ordinal - 1)| <= MAX_DEDUPE
  }

  /** A callback is accepted if and only if at most 64 of the ordinals seen so far are as new as its own. */
  lemma AcceptedExactly(callbacks: seq<Callback>, c: Callback)
    ensures Fresh(Run(callbacks), c) <==> Recent(Seen(Accepted(callbacks)), c.ordinal)
  {
    hide Run, Accepted, Seen, Truthful, Bounded;
    LedgerTruth(callbacks);
    var l, seen := Run(callbacks), Seen(Accepted(callbacks));
    if c.ordinal > l.floor {
      SeenAboveFloor(l, Accepted(callbacks));
      SubsetSize(Above(seen, c.ordinal - 1), Above(seen, l.floor));
    } else if c.ordinal > 0 {
      var newer := Above(seen, l.floor);
      SizeWith(newer, l.floor);
      SubsetSize(newer + {l.floor}, Above(seen, c.ordinal - 1));
    }
  }

  lemma {:induction false} AcceptedShrinks(callbacks: seq<Callback>)
    ensures |Accepted(callbacks)| <= |callbacks|
  {
    hide Run, Fresh;
    if callbacks != [] {
      AcceptedShrinks(callbacks[..|callbacks| - 1]);
    }
  }

  /** Nothing is lost, and the totals cover all callbacks, if and only if every callback is that recent when it comes. */
  lemma {:induction false} NothingLostExactly(callbacks: seq<Callback>)
    ensures Accepted(callbacks) == callbacks <==>
              forall i :: 0 <= i < |callbacks| ==> Recent(Seen(callbacks[..i]), callbacks[i].ordinal)
  {
    hide Run, Seen, Recent, Fresh;
    if callbacks != [] {
      var init, last := callbacks[..|callbacks| - 1], callbacks[|callbacks| - 1];
      NothingLostExactly(init);
      AcceptedExactly(init, last);
      AcceptedShrinks(init);
      assert callbacks == init + [last];
      assert forall i :: 0 <= i < |init| ==> init[..i] == callbacks[..i] && init[i] == callbacks[i];
      assert callbacks[..|init|] == init && callbacks[|init|] == last;
      if Accepted(callbacks) == callbacks {
        assert |Accepted(init)| == |init|;
        assert Accepted(init) == callbacks[..|init|];
      }
    }
  }

  // ---------------------------------------------------------------- call rows

  datatype Sizes = Sizes(message: nat, system: nat, history: nat, framing: nat)

  const NO_SIZES := Sizes(0, 0, 0, 0)

  /** One retained detail row. */
  datatype Row = Row(
    ordinal: int, input: nat, sizes: Sizes, contract: nat, observed: bool, outcome: string, tokens: Usage)

  datatype Totals = Totals(input: int, message: int, system: int, history: int, framing: int, contract: int)

  function AddRow(t: Totals, r: Row): Totals
  {
    Totals(t.input + r.input, t.message + r.sizes.message, t.system + r.sizes.system,
           t.history + r.sizes.history, t.framing + r.sizes.framing, t.contract + r.contract)
  }

  function SumRows(rows: seq<Row>): Totals
  {
    if rows == [] then Totals(0, 0, 0, 0, 0, 0) else AddRow(SumRows(rows[..|rows| - 1]), rows[|rows| - 1])
  }

  datatype Book = Book(rows: seq<Row>, total: int, retained: int, dropped: int, sums: Totals)

  const NO_CALLS := Book([], 0, 0, 0, Totals(0, 0, 0, 0, 0, 0))

  /** ensureModelCallStatsLocked. */
  function Ensured(b: Book): Book
  {
    var total := if b.total < |b.rows| then |b.rows| else b.total;
    var dropped := if total - |b.rows| > b.dropped then total - |b.rows| else b.dropped;
    b.(total := total, retained := |b.rows|, dropped := dropped)
  }

  /** recordModelCallWithInputSize. */
  function RecordedCall(b0: Book, row: Row): Book
  {
    var b := Ensured(b0);
    var full := |b.rows| >= MAX_CALLS;
    var rows := (if full then b.rows[|b.rows| - MAX_CALLS + 1..] else b.rows) + [row];
    Book(rows, b.total + 1, |rows|, if full then b.dropped + 1 else b.dropped, AddRow(b.sums, row))
  }

  /** Last row of `ordinal`, or -1. */
  function LastRow(rows: seq<Row>, ordinal: int): (k: int)
    ensures -1 <= k < |rows|
    ensures k >= 0 ==> rows[k].ordinal == ordinal
    ensures forall i :: k < i < |rows| ==> rows[i].ordinal != ordinal
  {
    if rows == [] then -1
    else if rows[|rows| - 1].ordinal == ordinal then |rows| - 1
    else LastRow(rows[..|rows| - 1], ordinal)
  }

  /** A row with the sizes the provider callback observed; its tool contract stays. */
  function Observed(r: Row, sizes: Sizes): Row
  {
    r.(input := sizes.message + r.contract, sizes := sizes, observed := true)
  }

  function Shift(t: Totals, before: Row, after: Row): Totals
  {
    Totals(t.input + after.input - before.input,
           t.message + after.sizes.message - before.sizes.message,
           t.system + after.sizes.system - before.sizes.system,
           t.history + after.sizes.history - before.sizes.history,
           t.framing + after.sizes.framing - before.sizes.framing,
           t.contract)
  }

  /** updateModelCallInputSize. */
  function ResizedCall(b0: Book, ordinal: int, sizes: Sizes): Book
  {
    var k := LastRow(b0.rows, ordinal);
    if k < 0 then b0
    else
      var b := Ensured(b0);
      var after := Observed(b.rows[k], sizes);
      b.(rows := b.rows[k := after], sums := Shift(b.sums, b.rows[k], after))
  }

  /** Last row of `ordinal` that still has no outcome, or -1. */
  function OpenRow(rows: seq<Row>, ordinal: int): (k: int)
    ensures -1 <= k < |rows|
    ensures k >= 0 ==> rows[k].ordinal == ordinal && rows[k].outcome == ""
    ensures forall i :: k < i < |rows| ==> !(rows[i].ordinal == ordinal && rows[i].outcome == "")
  {
    if rows == [] then -1
    else if rows[|rows| - 1].ordinal == ordinal && rows[|rows| - 1].outcome == "" then |rows| - 1
    else OpenRow(rows[..|rows| - 1], ordinal)
  }

  function Noted(r: Row, usage: Option<Usage>): Row
  {
    match usage case None => r case Some(u) => r.(tokens := u)
  }

  /** The usage of a callback, as far as the ledger lets it through to the row. */
  function Admitted(l: Ledger, c: Callback): Option<Usage>
  {
    if Fresh(l, c) then c.usage else None
  }

  /** recordModelResult: the open row of the call gets its outcome and the admitted usage. */
  function AnsweredCall(b0: Book, ordinal: int, outcome: string, usage: Option<Usage>): Book
  {
    var b := Ensured(b0);
    var k := OpenRow(b.rows, ordinal);
    if k < 0 then b else b.(rows := b.rows[k := Noted(b.rows[k].(outcome := outcome), usage)])
  }

  // ---------------------------------------------------------------- all rows ever recorded

  /** `usage` of an answer is what the ledger admitted. */
  datatype CallEvent =
    | Recorded(row: Row)
    | Resized(ordinal: int, sizes: Sizes)
    | Answered(ordinal: int, outcome: string, usage: Option<Usage>)

  function RunBook(events: seq<CallEvent>): Book
  {
    if events == [] then NO_CALLS
    else
      var b := RunBook(events[..|events| - 1]);
      match events[|events| - 1]
      case Recorded(row) => RecordedCall(b, row)
      case Resized(ordinal, sizes) => ResizedCall(b, ordinal, sizes)
      case Answered(ordinal, outcome, usage) => AnsweredCall(b, ordinal, outcome, usage)
  }

  /** First position that can still change: only the 32 newest rows can. */
  function WindowStart(all: seq<Row>): nat { if |all| <= MAX_CALLS then 0 else |all| - MAX_CALLS }

  /** Every row ever recorded, with what was last observed and answered for it while it was retained. */
  function AllRows(events: seq<CallEvent>): seq<Row>
  {
    if events == [] then []
    else
      var all := AllRows(events[..|events| - 1]);
      match events[|events| - 1]
      case Recorded(row) => all + [row]
      case Resized(ordinal, sizes) => ResizedAll(all, ordinal, sizes)
      case Answered(ordinal, outcome, usage) => AnsweredAll(all, ordinal, outcome, usage)
  }

  function ResizedAll(all: seq<Row>, ordinal: int, sizes: Sizes): seq<Row>
  {
    var k := LastRow(all, ordinal);
    if k < WindowStart(all) then all else all[k := Observed(all[k], sizes)]
  }

  function AnsweredAll(all: seq<Row>, ordinal: int, outcome: string, usage: Option<Usage>): seq<Row>
  {
    var k := OpenRow(all, ordinal);
    if k < WindowStart(all) then all else all[k := Noted(all[k].(outcome := outcome), usage)]
  }

  /** Counts and byte totals cover every row ever recorded, the dropped ones included. */
  predicate Balanced(b: Book, all: seq<Row>)
  {
    && b.rows == all[WindowStart(all)..]
    && b.total == |all| && b.retained == |b.rows| && b.dropped == |all| - |b.rows|
    && b.total == b.retained + b.dropped && b.retained <= MAX_CALLS
    && b.sums == SumRows(all)
  }

  lemma {:induction false} SumRowsUpdate(rows: seq<Row>, k: nat, after: Row)
    requires k < |rows| && after.contract == rows[k].contract
    ensures SumRows(rows[k := after]) == Shift(SumRows(rows), rows[k], after)
  {
    var init := rows[..|rows| - 1];
    if k == |rows| - 1 {
      assert rows[k := after][..|rows| - 1] == init;
    } else {
      SumRowsUpdate(init, k, after);
      assert rows[k := after][..|rows| - 1] == init[k := after];
    }
  }

  /** Searching the retained window finds the same row as searching everything. */
  lemma LastRowInWindow(all: seq<Row>, ordinal: int)
    ensures var w := WindowStart(all);
            LastRow(all[w..], ordinal)
            == if LastRow(all, ordinal) < w then -1 else LastRow(all, ordinal) - w
  {
    var w := WindowStart(all);
    var k, j := LastRow(all, ordinal), LastRow(all[w..], ordinal);
    assert j >= 0 ==> all[w + j].ordinal == ordinal;
    assert k >= w ==> all[w..][k - w].ordinal == ordinal;
  }

  lemma {:induction false} BookBalances(events: seq<CallEvent>)
    ensures Balanced(RunBook(events), AllRows(events))
  {
    if events != [] {
      var init := events[..|events| - 1];
      BookBalances(init);
      hide RunBook, AllRows;
      BookStep(events);
      match events[|events| - 1]
      case Recorded(row) =>
        RecordedBalances(RunBook(init), AllRows(init), row);
      case Resized(ordinal, sizes) =>
        ResizedBalances(RunBook(init), AllRows(init), ordinal, sizes);
      case Answered(ordinal, outcome, usage) =>
        AnsweredBalances(RunBook(init), AllRows(init), ordinal, outcome, usage);
    }
  }

  lemma BookStep(events: seq<CallEvent>)
    requires events != []
    ensures var init, last := events[..|events| - 1], events[|events| - 1];
            && (last.Recorded? ==>
                  RunBook(events) == RecordedCall(RunBook(init), last.row)
                  && AllRows(events) == AllRows(init) + [last.row])
            && (last.Resized? ==>
                  RunBook(events) == ResizedCall(RunBook(init), last.ordinal, last.sizes)
                  && AllRows(events) == ResizedAll(AllRows(init), last.ordinal, last.sizes))
            && (last.Answered? ==>
                  RunBook(events) == AnsweredCall(RunBook(init), last.ordinal, last.outcome, last.usage)
                  && AllRows(events) == AnsweredAll(AllRows(init), last.ordinal, last.outcome, last.usage))
  {}

  lemma RecordedBalances(b: Book, all: seq<Row>, row: Row)
    requires Balanced(b, all)
    ensures Balanced(RecordedCall(b, row), all + [row])
  {
    assert (all + [row])[..|all|] == all;
    assert Ensured(b) == b;
  }

  lemma ResizedBalances(b: Book, all: seq<Row>, ordinal: int, sizes: Sizes)
    requires Balanced(b, all)
    ensures Balanced(ResizedCall(b, ordinal, sizes), ResizedAll(all, ordinal, sizes))
  {
    hide LastRow, SumRows;
    LastRowInWindow(all, ordinal);
    assert Ensured(b) == b;
    var w, k := WindowStart(all), LastRow(all, ordinal);
    if k >= w {
      var after := Observed(all[k], sizes);
      SumRowsUpdate(all, k, after);
      assert all[k := after][w..] == all[w..][k - w := after];
    }
  }

  /** Searching the retained window for an open row finds the same one as searching everything. */
  lemma OpenRowInWindow(all: seq<Row>, ordinal: int)
    ensures var w := WindowStart(all);
            OpenRow(all[w..], ordinal)
            == if OpenRow(all, ordinal) < w then -1 else OpenRow(all, ordinal) - w
  {
    var w := WindowStart(all);
    var k, j := OpenRow(all, ordinal), OpenRow(all[w..], ordinal);
    assert j >= 0 ==> all[w + j].ordinal == ordinal && all[w + j].outcome == "";
    assert k >= w ==> all[w..][k - w].ordinal == ordinal && all[w..][k - w].outcome == "";
  }

  lemma AnsweredBalances(b: Book, all: seq<Row>, ordinal: int, outcome: string, usage: Option<Usage>)
    requires Balanced(b, all)
    ensures Balanced(AnsweredCall(b, ordinal, outcome, usage), AnsweredAll(all, ordinal, outcome, usage))
  {
    hide OpenRow, SumRows, Shift, Noted;
    OpenRowInWindow(all, ordinal);
    assert Ensured(b) == b;
    var w, k := WindowStart(all), OpenRow(all, ordinal);
    if k >= w {
      var after := Noted(all[k].(outcome := outcome), usage);
      NotedKeepsSizes(SumRows(all), all[k], outcome, usage);
      SumRowsUpdate(all, k, after);
      ReplaceInSuffix(all, w, k, after);
    }
  }

  lemma NotedKeepsSizes(t: Totals, r: Row, outcome: string, usage: Option<Usage>)
    ensures var after := Noted(r.(outcome := outcome), usage); after.contract == r.contract && Shift(t, r, after) == t
  {}

  lemma ReplaceInSuffix(all: seq<Row>, w: nat, k: nat, after: Row)
    requires w <= k < |all|
    ensures all[k := after][w..] == all[w..][k - w := after]
  {}

  // ---------------------------------------------------------------- the recorder

  class Recorder {
    var usage: map<int, Usage>
    var missing: set<int>
    var floor: int
    var tokens: Usage
    var missingCalls: int
    var rows: seq<Row>
    var total: int
    var retained: int
    var dropped: int
    var sums: Totals

    constructor ()
      ensures LedgerValue() == EMPTY && BookValue() == NO_CALLS
    {
      usage, missing, floor, tokens, missingCalls := map[], {}, 0, NO_USAGE, 0;
      rows, total, retained, dropped, sums := [], 0, 0, 0, Totals(0, 0, 0, 0, 0, 0);
    }

    function LedgerValue(): Ledger
      reads this
    {
      Ledger(usage, missing, floor, tokens, missingCalls)
    }

    function BookValue(): Book
      reads this
    {
      Book(rows, total, retained, dropped, sums)
    }

    method EnsureStats()
      modifies this
      ensures BookValue() == Ensured(old(BookValue())) && LedgerValue() == old(LedgerValue())
    {
      if total < |rows| {
        total := |rows|;
      }
      retained := |rows|;
      var minimumDropped := total - retained;
      if minimumDropped > dropped {
        dropped := minimumDropped;
      }
    }

    method RecordModelCall(row: Row)
      modifies this
      ensures BookValue() == if row.ordinal <= 0 then old(BookValue()) else RecordedCall(old(BookValue()), row)
      ensures LedgerValue() == old(LedgerValue())
    {
      if row.ordinal <= 0 {
        return;
      }
      EnsureStats();
      total := total + 1;
      if |rows| >= MAX_CALLS {
        dropped := dropped + 1;
        rows := rows[|rows| - MAX_CALLS + 1..];
      }
      rows := rows + [row];
      retained := |rows|;
      sums := AddRow(sums, row);
    }

    method UpdateInputSize(ordinal: int, sizes: Sizes)
      modifies this
      ensures BookValue() == if ordinal <= 0 then old(BookValue()) else ResizedCall(old(BookValue()), ordinal, sizes)
      ensures LedgerValue() == old(LedgerValue())
    {
      if ordinal <= 0 {
        return;
      }
      var index := |rows| - 1;
      while index >= 0
        invariant -1 <= index < |rows|
        invariant BookValue() == old(BookValue()) && LedgerValue() == old(LedgerValue())
        invariant forall i :: index < i < |rows| ==> rows[i].ordinal != ordinal
      {
        if rows[index].ordinal == ordinal {
          LastRowIs(rows, ordinal, index);
          EnsureStats();
          var after := Observed(rows[index], sizes);
          sums := Shift(sums, rows[index], after);
          rows := rows[index := after];
          return;
        }
        index := index - 1;
      }
      LastRowIs(rows, ordinal, -1);
    }

    /** Ordinals start at 1. */
    ghost predicate Valid()
      reads this
    {
      forall k :: k in Keys(LedgerValue()) ==> k > 0
    }

    /** recordModelUsageLocked; `entry` is the position of the call's row, -1 for none. */
    method RecordUsage(c: Callback, entry: int)
      requires Valid() && -1 <= entry < |rows|
      modifies this
      ensures LedgerValue() == Record(old(LedgerValue()), c) && Valid()
      ensures BookValue() == old(BookValue()).(rows :=
                if entry < 0 then old(rows)
                else old(rows)[entry := Noted(old(rows)[entry], Admitted(old(LedgerValue()), c))])
    {
      if c.ordinal <= 0 || c.ordinal <= floor {
        return;
      }
      if c.usage.None? && (c.ordinal in usage || c.ordinal in missing) {
        return;
      }
      AcceptKeys(LedgerValue(), c);
      AcceptUsage(c);
      if entry >= 0 {
        rows := rows[entry := Noted(rows[entry], c.usage)];
      }
      TrimUsageDedupe();
    }

    /** recordModelResult. */
    method RecordResult(ordinal: int, outcome: string, reported: Option<Usage>)
      requires Valid()
      modifies this
      ensures Valid()
      ensures ordinal <= 0 ==> LedgerValue() == old(LedgerValue()) && BookValue() == old(BookValue())
      ensures ordinal > 0 ==>
                && LedgerValue() == Record(old(LedgerValue()), Callback(ordinal, reported))
                && BookValue() == AnsweredCall(old(BookValue()), ordinal, outcome,
                     Admitted(old(LedgerValue()), Callback(ordinal, reported)))
    {
      hide Record, Ensured, Admitted;
      if ordinal <= 0 {
        return;
      }
      EnsureStats();
      EnsuredKeepsRows(old(BookValue()));
      var index := |rows| - 1;
      while index >= 0
        invariant -1 <= index < |rows| && Valid()
        invariant BookValue() == Ensured(old(BookValue())) && LedgerValue() == old(LedgerValue())
        invariant forall i :: index < i < |rows| ==> !(rows[i].ordinal == ordinal && rows[i].outcome == "")
      {
        if rows[index].ordinal == ordinal && rows[index].outcome == "" {
          OpenRowIs(rows, ordinal, index);
          rows := rows[index := rows[index].(outcome := outcome)];
          RecordUsage(Callback(ordinal, reported), index);
          return;
        }
        index := index - 1;
      }
      OpenRowIs(rows, ordinal, -1);
      RecordUsage(Callback(ordinal, reported), -1);
    }

    method AcceptUsage(c: Callback)
      requires !Redundant(LedgerValue(), c)
      modifies this
      ensures LedgerValue() == Accept(old(LedgerValue()), c) && BookValue() == old(BookValue())
    {
      match c.usage
      case None =>
        missing := missing + {c.ordinal};
        missingCalls := missingCalls + 1;
      case Some(u) =>
        var previous := if c.ordinal in usage then usage[c.ordinal] else NO_USAGE;
        tokens := Plus(tokens, Minus(u, previous));
        usage := usage[c.ordinal := u];
        if c.ordinal in missing && missingCalls > 0 {
          missingCalls := missingCalls - 1;
        }
        missing := missing - {c.ordinal};
    }

    /** trimUsageDedupeLocked. */
    method TrimUsageDedupe()
      requires Valid()
      modifies this
      ensures LedgerValue() == Trim(old(LedgerValue())) && BookValue() == old(BookValue())
      ensures Valid()
    {
      while |usage| + |missing| > MAX_DEDUPE
        invariant Trim(LedgerValue()) == Trim(old(LedgerValue())) && BookValue() == old(BookValue())
        invariant Valid()
        decreases |usage| + |missing|
      {
        EntriesNonEmpty(LedgerValue());
        hide Trim, Least;
        TrimStep(LedgerValue());
        var oldest := FindOldest();
        EvictShrinks(LedgerValue(), oldest);
        usage := usage - {oldest};
        missing := missing - {oldest};
        floor := if floor > oldest then floor else oldest;
      }
    }

    /** Scans the keys of both maps, in whatever order they come, for the least ordinal. */
    method FindOldest() returns (oldest: int)
      requires Keys(LedgerValue()) != {} && Valid()
      ensures oldest == Oldest(Keys(LedgerValue()))
    {
      oldest := 0;
      var left := usage.Keys + missing;
      while left != {}
        invariant left <= Keys(LedgerValue())
        invariant oldest == 0 <==> left == Keys(LedgerValue())
        invariant oldest != 0 ==> oldest in Keys(LedgerValue())
        invariant forall k :: k in Keys(LedgerValue()) && k !in left ==> oldest <= k
        decreases |left|
      {
        ghost var member := Pick(left);
        var ordinal :| ordinal in left;
        SizeWithout(left, ordinal);
        left := left - {ordinal};
        if oldest == 0 || ordinal < oldest {
          oldest := ordinal;
        }
      }
      assert oldest in Keys(LedgerValue());
      assert forall k :: k in Keys(LedgerValue()) ==> oldest <= k;
      LeastUnique(Keys(LedgerValue()), oldest);
    }
  }

  lemma TrimStep(l: Ledger)
    requires Entries(l) > MAX_DEDUPE && Keys(l) != {}
    ensures Trim(l) == Trim(Evict(l, Oldest(Keys(l))))
  {}

  lemma LeastUnique(s: set<int>, m: int)
    requires Least(s, m)
    ensures m == Oldest(s)
  {}

  lemma EnsuredKeepsRows(b: Book)
    ensures Ensured(b).rows == b.rows
  {}

  lemma OpenRowIs(rows: seq<Row>, ordinal: int, k: int)
    requires -1 <= k < |rows| && (k >= 0 ==> rows[k].ordinal == ordinal && rows[k].outcome == "")
    requires forall i :: k < i < |rows| ==> !(rows[i].ordinal == ordinal && rows[i].outcome == "")
    ensures OpenRow(rows, ordinal) == k
  {
    var j := OpenRow(rows, ordinal);
    assert j >= 0 ==> rows[j].ordinal == ordinal && rows[j].outcome == "";
  }

  lemma LastRowIs(rows: seq<Row>, ordinal: int, k: int)
    requires -1 <= k < |rows| && (k >= 0 ==> rows[k].ordinal == ordinal)
    requires forall i :: k < i < |rows| ==> rows[i].ordinal != ordinal
    ensures LastRow(rows, ordinal) == k
  {
    var j := LastRow(rows, ordinal);
    assert j >= 0 ==> rows[j].ordinal == ordinal;
  }
}
