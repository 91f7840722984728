/**
  What the usage ledger and the book of call rows hold, field by field and in plain integers,
  in terms of the callbacks and events that came in.
 */
module UsageReading {
  import opened Wrappers
  import opened Sets
  import opened UsageLedger

  // ---------------------------------------------------------------- the ledger

  /** Some callback reports usage for the ordinal, and `u` is what the last of them reports. */
  predicate ReportedLast(callbacks: seq<Callback>, ordinal: int, u: Usage)
  {
    exists i :: 0 <= i < |callbacks| && callbacks[i] == Callback(ordinal, Some(u))
      && forall j :: i < j < |callbacks| && callbacks[j].ordinal == ordinal ==> callbacks[j].usage.None?
  }

  predicate Reports(callbacks: seq<Callback>, ordinal: int)
  {
    exists i :: 0 <= i < |callbacks| && callbacks[i].ordinal == ordinal && callbacks[i].usage.Some?
  }

  predicate Mentions(callbacks: seq<Callback>, ordinal: int)
  {
    exists i :: 0 <= i < |callbacks| && callbacks[i].ordinal == ordinal
  }

  /** The sum of a value over a set of ordinals. */
  ghost function SumOf(ordinals: set<int>, value: int -> int): int
    decreases |ordinals|
  {
    if ordinals == {} then 0
    else
      var o := Oldest(ordinals);
      value(o) + SumOf(ordinals - {o}, value)
  }

  function Prompts(latest: int -> Usage): int -> int { (o: int) => latest(o).prompt }

  function Cacheds(latest: int -> Usage): int -> int { (o: int) => latest(o).cached }

  function Completions(latest: int -> Usage): int -> int { (o: int) => latest(o).completion }

  function Grand(latest: int -> Usage): int -> int { (o: int) => latest(o).total }

  lemma {:induction false} ReportersAre(callbacks: seq<Callback>, ordinal: int)
    ensures ordinal in Reporters(callbacks) <==> Reports(callbacks, ordinal)
    ensures ordinal in Seen(callbacks) <==> Mentions(callbacks, ordinal)
  {
    if callbacks != [] {
      var init, last := callbacks[..|callbacks| - 1], callbacks[|callbacks| - 1];
      ReportersAre(init, ordinal);
      if i :| 0 <= i < |init| && init[i].ordinal == ordinal {
        assert callbacks[i] == init[i];
      }
      if i :| 0 <= i < |init| && init[i].ordinal == ordinal && init[i].usage.Some? {
        assert callbacks[i] == init[i];
      }
      if i :| 0 <= i < |callbacks| && callbacks[i].ordinal == ordinal && i < |init| {
        assert callbacks[i] == init[i];
      }
      if i :| 0 <= i < |callbacks| && callbacks[i].ordinal == ordinal && callbacks[i].usage.Some? && i < |init| {
        assert callbacks[i] == init[i];
      }
      assert callbacks[|init|] == last;
    }
  }

  lemma {:induction false} LastUsageIs(callbacks: seq<Callback>, ordinal: int, u: Usage)
    requires ReportedLast(callbacks, ordinal, u)
    ensures LastUsage(callbacks, ordinal) == u
  {
    var init, last := callbacks[..|callbacks| - 1], callbacks[|callbacks| - 1];
    var i :| 0 <= i < |callbacks| && callbacks[i] == Callback(ordinal, Some(u))
      && forall j :: i < j < |callbacks| && callbacks[j].ordinal == ordinal ==> callbacks[j].usage.None?;
    if i < |init| {
      assert init[i] == callbacks[i];
      LastUsageIs(init, ordinal, u);
    }
  }

  lemma {:induction false} SumIs(ordinals: set<int>, callbacks: seq<Callback>, latest: int -> Usage)
    requires forall o :: o in ordinals ==> ReportedLast(callbacks, o, latest(o))
    ensures Sum(ordinals, callbacks)
         == Usage(SumOf(ordinals, Prompts(latest)), SumOf(ordinals, Cacheds(latest)),
                  SumOf(ordinals, Completions(latest)), SumOf(ordinals, Grand(latest)))
    decreases |ordinals|
  {
    hide ReportedLast, Plus;
    if ordinals != {} {
      var o := Oldest(ordinals);
      SumIs(ordinals - {o}, callbacks, latest);
      LastUsageIs(callbacks, o, latest(o));
      PlusAdds(LastUsage(callbacks, o), Sum(ordinals - {o}, callbacks));
    }
  }

  lemma PlusAdds(a: Usage, b: Usage)
    ensures var r := Plus(a, b);
            && r.prompt == a.prompt + b.prompt && r.cached == a.cached + b.cached
            && r.completion == a.completion + b.completion && r.total == a.total + b.total
  {}

  /**
    The totals field by field: over the ordinals that an accepted callback reports usage for,
    the sum of what the last of them reports; and the ordinals that are mentioned without any.
   */
  lemma TotalsAreSums(callbacks: seq<Callback>, reported: set<int>, silent: set<int>, latest: int -> Usage)
    requires forall o :: o in reported <==> Reports(Accepted(callbacks), o)
    requires forall o :: o in silent <==> Mentions(Accepted(callbacks), o) && !Reports(Accepted(callbacks), o)
    requires forall o :: o in reported ==> ReportedLast(Accepted(callbacks), o, latest(o))
    ensures var l := Run(callbacks);
            && l.tokens.prompt == SumOf(reported, Prompts(latest))
            && l.tokens.cached == SumOf(reported, Cacheds(latest))
            && l.tokens.completion == SumOf(reported, Completions(latest))
            && l.tokens.total == SumOf(reported, Grand(latest))
            && l.missingCalls == |silent|
  {
    hide Run, Accepted, Reports, Mentions, ReportedLast, Sum, SumOf, Reporters, Seen;
    var accepted := Accepted(callbacks);
    LedgerTruth(callbacks);
    forall o
      ensures o in Reporters(accepted) <==> o in reported
      ensures o in Silent(accepted) <==> o in silent
    {
      ReportersAre(accepted, o);
    }
    assert Reporters(accepted) == reported && Silent(accepted) == silent;
    SumIs(reported, accepted, latest);
  }

  /** A callback is accepted if and only if at most 64 ordinals mentioned by accepted ones are as new as its own. */
  lemma AcceptedByCount(callbacks: seq<Callback>, c: Callback, newer: set<int>)
    requires forall o :: o in newer <==> o >= c.ordinal && Mentions(Accepted(callbacks), o)
    ensures Accepted(callbacks + [c]) == Accepted(callbacks) + (if c.ordinal > 0 && |newer| <= 64 then [c] else [])
  {
    hide Run, Accepted, Mentions, Seen, Fresh;
    var accepted := Accepted(callbacks);
    AcceptedExactly(callbacks, c);
    forall o
      ensures o in Above(Seen(accepted), c.ordinal - 1) <==> o in newer
    {
      ReportersAre(accepted, o);
    }
    assert Above(Seen(accepted), c.ordinal - 1) == newer;
    RunStep(callbacks + [c]);
    assert (callbacks + [c])[..|callbacks|] == callbacks;
  }

  // ---------------------------------------------------------------- the book

  /** The sums of the rows, column by column. */
  predicate AreSums(rows: seq<Row>, t: Totals)
  {
    if rows == [] then t == Totals(0, 0, 0, 0, 0, 0)
    else
      var r := rows[|rows| - 1];
      AreSums(rows[..|rows| - 1],
        Totals(t.input - r.input, t.message - r.sizes.message, t.system - r.sizes.system,
               t.history - r.sizes.history, t.framing - r.sizes.framing, t.contract - r.contract))
  }

  lemma {:induction false} SumRowsAre(rows: seq<Row>)
    ensures AreSums(rows, SumRows(rows))
  {
    if rows != [] {
      SumRowsAre(rows[..|rows| - 1]);
    }
  }

  /** The newest retained row of this ordinal; with `open`, of those without outcome. */
  predicate Newest(rows: seq<Row>, k: nat, ordinal: int, open: bool)
  {
    && k < |rows| && rows[k].ordinal == ordinal && (open ==> rows[k].outcome == "")
    && forall i :: k < i < |rows| ==> !(rows[i].ordinal == ordinal && (open ==> rows[i].outcome == ""))
  }

  /** The rows are the same but for row `k`, which is `r` in the second list. */
  predicate Replaces(before: seq<Row>, after: seq<Row>, k: nat, r: Row)
  {
    && |before| == |after| && k < |after| && after[k] == r
    && forall i :: 0 <= i < |after| && i != k ==> after[i] == before[i]
  }

  /** What one event does to the book, field by field. */
  ghost predicate Follows(b: Book, event: CallEvent, next: Book)
  {
    match event
    case Recorded(row) =>
      && next.rows == b.rows[if |b.rows| < 32 then 0 else 1..] + [row]
      && next.total == b.total + 1 && next.retained == |next.rows|
      && next.dropped == b.dropped + (if |b.rows| < 32 then 0 else 1)
      && next.sums.input == b.sums.input + row.input
      && next.sums.message == b.sums.message + row.sizes.message
      && next.sums.system == b.sums.system + row.sizes.system
      && next.sums.history == b.sums.history + row.sizes.history
      && next.sums.framing == b.sums.framing + row.sizes.framing
      && next.sums.contract == b.sums.contract + row.contract
    case Resized(ordinal, sizes) =>
      || ((forall i :: 0 <= i < |b.rows| ==> b.rows[i].ordinal != ordinal) && next == b)
      || (exists k: nat :: Newest(b.rows, k, ordinal, false) && ResizedAt(b, k, sizes, next))
    case Answered(ordinal, outcome, usage) =>
      || ((forall i :: 0 <= i < |b.rows| && b.rows[i].ordinal == ordinal ==> b.rows[i].outcome != "") && next == b)
      || (exists k: nat :: Newest(b.rows, k, ordinal, true) && AnsweredAt(b, k, outcome, usage, next))
  }

  /** The row gets the sizes that were observed, on top of its tool contract; the sums move by the difference. */
  predicate ResizedAt(b: Book, k: nat, sizes: Sizes, next: Book)
    requires k < |b.rows|
  {
    var r := b.rows[k];
    && Replaces(b.rows, next.rows, k,
         Row(r.ordinal, sizes.message + r.contract, sizes, r.contract, true, r.outcome, r.tokens))
    && next.total == b.total && next.retained == b.retained && next.dropped == b.dropped
    && next.sums.input - b.sums.input == sizes.message + r.contract - r.input
    && next.sums.message - b.sums.message == sizes.message - r.sizes.message
    && next.sums.system - b.sums.system == sizes.system - r.sizes.system
    && next.sums.history - b.sums.history == sizes.history - r.sizes.history
    && next.sums.framing - b.sums.framing == sizes.framing - r.sizes.framing
    && next.sums.contract == b.sums.contract
  }

  /** The row gets the outcome, and the usage if there is some; nothing else moves. */
  predicate AnsweredAt(b: Book, k: nat, outcome: string, usage: Option<Usage>, next: Book)
    requires k < |b.rows|
  {
    var r := b.rows[k];
    && Replaces(b.rows, next.rows, k,
         Row(r.ordinal, r.input, r.sizes, r.contract, r.observed, outcome,
             match usage case None => r.tokens case Some(u) => u))
    && next == b.(rows := next.rows)
  }

  lemma NewestIs(rows: seq<Row>, ordinal: int)
    ensures LastRow(rows, ordinal) >= 0 ==> Newest(rows, LastRow(rows, ordinal), ordinal, false)
    ensures LastRow(rows, ordinal) < 0 ==> forall i :: 0 <= i < |rows| ==> rows[i].ordinal != ordinal
    ensures OpenRow(rows, ordinal) >= 0 ==> Newest(rows, OpenRow(rows, ordinal), ordinal, true)
    ensures OpenRow(rows, ordinal) < 0 ==>
              forall i :: 0 <= i < |rows| && rows[i].ordinal == ordinal ==> rows[i].outcome != ""
  {
    hide LastRow, OpenRow;
  }

  /** What an event does to a book that balances. */
  lemma EventFollows(b: Book, all: seq<Row>, event: CallEvent, next: Book)
    requires Balanced(b, all)
    requires match event
             case Recorded(row) => next == RecordedCall(b, row)
             case Resized(ordinal, sizes) => next == ResizedCall(b, ordinal, sizes)
             case Answered(ordinal, outcome, usage) => next == AnsweredCall(b, ordinal, outcome, usage)
    ensures Follows(b, event, next)
  {
    hide LastRow, OpenRow, SumRows, Newest;
    assert Ensured(b) == b;
    match event
    case Recorded(row) =>
    case Resized(ordinal, sizes) =>
      NewestIs(b.rows, ordinal);
      var k := LastRow(b.rows, ordinal);
      if k >= 0 {
        assert ResizedAt(b, k, sizes, next);
      }
    case Answered(ordinal, outcome, usage) =>
      NewestIs(b.rows, ordinal);
      var k := OpenRow(b.rows, ordinal);
      if k >= 0 {
        assert AnsweredAt(b, k, outcome, usage, next);
      }
  }

  /**
    The book over any run of events: each does to the rows, counts and sums exactly what its
    kind says; counts balance, and the sums are those of all rows ever recorded.
   */
  lemma BookFollows(events: seq<CallEvent>, event: CallEvent)
    ensures Follows(RunBook(events), event, RunBook(events + [event]))
    ensures var b := RunBook(events + [event]);
            && b.total == b.retained + b.dropped && b.retained == |b.rows| <= 32
            && |AllRows(events + [event])| == b.total && AreSums(AllRows(events + [event]), b.sums)
  {
    hide Balanced, RunBook, AllRows, Follows, AreSums;
    var all := events + [event];
    BookBalances(events);
    BookBalances(all);
    BookStep(all);
    assert all[..|events|] == events;
    EventFollows(RunBook(events), AllRows(events), event, RunBook(all));
    BalancedSums(RunBook(all), AllRows(all));
  }

  lemma BalancedSums(b: Book, all: seq<Row>)
    requires Balanced(b, all)
    ensures b.total == b.retained + b.dropped == |all| && b.retained == |b.rows| <= 32 && AreSums(all, b.sums)
  {
    hide SumRows, AreSums;
    SumRowsAre(all);
  }
}
