/**
  The window bookkeeping of context compaction: attempts are begun, then completed or
  failed, and every completed attempt links to the window before it.
 */
module CompactionWindows {
  import opened Wrappers

  const UINT64: nat := 0x1_0000_0000_0000_0000

  datatype Attempt = Attempt(
    id: string, windowNumber: nat, firstWindowID: string, previousWindowID: string, windowID: string,
    priorTokens: int, compactedThrough: int)

  datatype State = State(
    active: Option<Attempt>, windowNumber: nat, firstWindowID: string, currentWindowID: string)

  /** A fresh runtime, or one that continues from a loaded checkpoint. */
  datatype Start = Fresh(windowID: string) | Resumed(windowNumber: nat, firstWindowID: string, windowID: string)

  function Initial(start: Start): State
  {
    match start
    case Fresh(id) => State(None, 0, id, id)
    case Resumed(n, first, id) => State(None, n, first, id)
  }

  /**
    One call on the runtime. IDs are fresh UUIDs supplied from outside; `audited` says
    whether the audit recorder accepted the entry; Persist stands for the checkpoint that
    is stored between begin and complete.
   */
  datatype Op =
    | Begin(id: string, windowID: string, priorTokens: int, tail: int, audited: bool)
    | Persist
    | Complete(audited: bool)
    | Fail(caused: bool, audited: bool)

  /** What a run has produced: the runtime, the completed attempts and the stored checkpoints. */
  datatype Run = Run(st: State, completed: seq<Attempt>, persisted: seq<Attempt>)

  function NewAttempt(st: State, op: Op): Attempt
    requires op.Begin?
  {
    Attempt(op.id, (st.windowNumber + 1) % UINT64, st.firstWindowID, st.currentWindowID, op.windowID,
            op.priorTokens, if op.tail < 0 then 0 else op.tail)
  }

  function Step(run: Run, op: Op): Run
  {
    var st := run.st;
    match op
    case Begin(_, _, _, _, _) =>
      var attempt := NewAttempt(st, op);
      run.(st := st.(active := Some(attempt), windowNumber := attempt.windowNumber))
    case Persist =>
      if st.active.None? then run else run.(persisted := run.persisted + [st.active.value])
    case Complete(audited) =>
      if st.active.None? || !audited then run
      else Run(st.(active := None, currentWindowID := st.active.value.windowID),
               run.completed + [st.active.value], run.persisted)
    case Fail(caused, _) =>
      if !caused then run else run.(st := st.(active := None))
  }

  function RunFrom(start: Start, ops: seq<Op>): Run
  {
    if ops == [] then Run(Initial(start), [], [])
    else Step(RunFrom(start, ops[..|ops| - 1]), ops[|ops| - 1])
  }

  function Begins(ops: seq<Op>): nat
  {
    if ops == [] then 0 else Begins(ops[..|ops| - 1]) + if ops[|ops| - 1].Begin? then 1 else 0
  }

  /** Attempts that link window to window from `window`, with one first window and rising numbers. */
  predicate Chain(attempts: seq<Attempt>, window: string, first: string, number: nat)
  {
    forall i :: 0 <= i < |attempts| ==>
      Follows(attempts[i], first, WindowBefore(attempts, i, window), NumberBefore(attempts, i, number))
  }

  function WindowBefore(attempts: seq<Attempt>, i: nat, window: string): string
    requires i <= |attempts|
  {
    if i == 0 then window else attempts[i - 1].windowID
  }

  function NumberBefore(attempts: seq<Attempt>, i: nat, number: nat): nat
    requires i <= |attempts|
  {
    if i == 0 then number else attempts[i - 1].windowNumber
  }

  predicate Follows(a: Attempt, first: string, window: string, number: nat)
  {
    a.previousWindowID == window && a.firstWindowID == first && a.windowNumber > number
  }

  predicate Linked(start: Start, run: Run)
  {
    var init := Initial(start);
    var done := run.completed;
    var number := NumberBefore(done, |done|, init.windowNumber);
    && Chain(done, init.currentWindowID, init.firstWindowID, init.windowNumber)
    && run.st.firstWindowID == init.firstWindowID
    && run.st.currentWindowID == WindowBefore(done, |done|, init.currentWindowID)
    && number <= run.st.windowNumber
    && (run.st.active.Some? ==>
          && Follows(run.st.active.value, init.firstWindowID, run.st.currentWindowID, number)
          && run.st.active.value.windowNumber == run.st.windowNumber)
  }

  lemma BeforeAppend(done: seq<Attempt>, a: Attempt, i: nat, window: string, number: nat)
    requires i <= |done|
    ensures WindowBefore(done + [a], i, window) == WindowBefore(done, i, window)
    ensures NumberBefore(done + [a], i, number) == NumberBefore(done, i, number)
  {}

  lemma ChainAppend(done: seq<Attempt>, a: Attempt, window: string, first: string, number: nat)
    requires Chain(done, window, first, number)
    requires Follows(a, first, WindowBefore(done, |done|, window), NumberBefore(done, |done|, number))
    ensures Chain(done + [a], window, first, number)
  {
    hide Follows;
    var now := done + [a];
    forall i | 0 <= i < |now|
      ensures Follows(now[i], first, WindowBefore(now, i, window), NumberBefore(now, i, number))
    {
      BeforeAppend(done, a, i, window, number);
      hide WindowBefore, NumberBefore;
      if i < |done| {
        assert now[i] == done[i];
      }
    }
  }

  /**
    Over any run of begin, persist, complete and fail, whatever the audit answers, the
    completed attempts form one chain. The 64-bit window counter must not wrap.
   */
  lemma {:induction false} CompletedAttemptsChain(start: Start, ops: seq<Op>)
    requires Initial(start).windowNumber + Begins(ops) < UINT64
    ensures Linked(start, RunFrom(start, ops))
    ensures RunFrom(start, ops).st.windowNumber == Initial(start).windowNumber + Begins(ops)
  {
    if ops != [] {
      var init := ops[..|ops| - 1];
      CompletedAttemptsChain(start, init);
      hide RunFrom, Begins;
      StepLinks(start, RunFrom(start, init), ops[|ops| - 1]);
      RunStep(start, ops);
    }
  }

  lemma RunStep(start: Start, ops: seq<Op>)
    requires ops != []
    ensures RunFrom(start, ops) == Step(RunFrom(start, ops[..|ops| - 1]), ops[|ops| - 1])
    ensures Begins(ops) == Begins(ops[..|ops| - 1]) + if ops[|ops| - 1].Begin? then 1 else 0
  {}

  lemma StepLinks(start: Start, run: Run, op: Op)
    requires Linked(start, run) && (op.Begin? ==> run.st.windowNumber + 1 < UINT64)
    ensures Linked(start, Step(run, op))
    ensures Step(run, op).st.windowNumber == run.st.windowNumber + if op.Begin? then 1 else 0
  {
    hide Linked;
    match op
    case Begin(_, _, _, _, _) => BeginLinks(start, run, op);
    case Persist => StillLinked(start, run, Step(run, op));
    case Complete(audited) =>
      if run.st.active.Some? && audited {
        CompleteLinks(start, run);
      }
    case Fail(caused, _) => StillLinked(start, run, Step(run, op));
  }

  lemma NoWrap(n: nat)
    requires n + 1 < UINT64
    ensures (n + 1) % UINT64 == n + 1
  {}

  lemma BeginLinks(start: Start, run: Run, op: Op)
    requires Linked(start, run) && op.Begin? && run.st.windowNumber + 1 < UINT64
    ensures Linked(start, Step(run, op)) && Step(run, op).st.windowNumber == run.st.windowNumber + 1
  {
    hide Chain, WindowBefore, NumberBefore;
    NoWrap(run.st.windowNumber);
  }

  lemma StillLinked(start: Start, run: Run, next: Run)
    requires Linked(start, run) && next.completed == run.completed
    requires next.st == run.st || next.st == run.st.(active := None)
    ensures Linked(start, next)
  {
    hide Chain, WindowBefore, NumberBefore;
  }

  lemma CompleteLinks(start: Start, run: Run)
    requires Linked(start, run) && run.st.active.Some?
    ensures Linked(start, Step(run, Complete(true)))
  {
    hide Chain, Follows;
    var init, a := Initial(start), run.st.active.value;
    ChainAppend(run.completed, a, init.currentWindowID, init.firstWindowID, init.windowNumber);
  }

  /**
    Stored checkpoints need not form such a chain: one that is stored but then fails is
    followed by a checkpoint that links past it.
   */
  lemma PersistedMayLinkPast(w0: string, w1: string, w2: string)
    requires w0 != w1
    ensures var run := RunFrom(Fresh(w0), [
              Begin("a", w1, 0, 0, true), Persist, Fail(true, true),
              Begin("b", w2, 0, 0, true), Persist, Complete(true)]);
            && |run.persisted| == 2 && |run.completed| == 1
            && run.persisted[1].previousWindowID == w0 != run.persisted[0].windowID
            && !Chain(run.persisted, w0, w0, 0)
  {
    var b1 := Begin("a", w1, 0, 0, true);
    var b2 := Begin("b", w2, 0, 0, true);
    var fail, done := Fail(true, true), Complete(true);
    var start := Fresh(w0);
    hide RunFrom;
    NothingRun(start);
    Unfold(start, [], b1);
    assert [] + [b1] == [b1];
    Unfold(start, [b1], Persist);
    assert [b1] + [Persist] == [b1, Persist];
    Unfold(start, [b1, Persist], fail);
    assert [b1, Persist] + [fail] == [b1, Persist, fail];
    Unfold(start, [b1, Persist, fail], b2);
    assert [b1, Persist, fail] + [b2] == [b1, Persist, fail, b2];
    Unfold(start, [b1, Persist, fail, b2], Persist);
    assert [b1, Persist, fail, b2] + [Persist] == [b1, Persist, fail, b2, Persist];
    Unfold(start, [b1, Persist, fail, b2, Persist], done);
    assert [b1, Persist, fail, b2, Persist] + [done] == [b1, Persist, fail, b2, Persist, done];
  }

  lemma NothingRun(start: Start)
    ensures RunFrom(start, []) == Run(Initial(start), [], [])
  {}

  lemma Unfold(start: Start, ops: seq<Op>, op: Op)
    ensures RunFrom(start, ops + [op]) == Step(RunFrom(start, ops), op)
  {
    assert (ops + [op])[..|ops|] == ops;
  }

  // ---------------------------------------------------------------- when the stored checkpoints chain

  /** The window a run starts in and those of all attempts begun. */
  function UsedWindows(start: Start, ops: seq<Op>): set<string>
  {
    if ops == [] then {Initial(start).currentWindowID}
    else
      UsedWindows(start, ops[..|ops| - 1])
        + (if ops[|ops| - 1].Begin? then {ops[|ops| - 1].windowID} else {})
  }

  /** Whether a call keeps to the order of a compaction: store an attempt once, complete it only once stored. */
  predicate InOrder(used: set<string>, run: Run, op: Op)
  {
    match op
    case Begin(_, windowID, _, _, _) => windowID !in used
    case Persist => run.st.active.Some? ==> !IsLastStored(run)
    case Complete(audited) => audited && run.st.active.Some? ==> IsLastStored(run)
    case Fail(_, _) => true
  }

  /** The active attempt is the one stored last. */
  predicate IsLastStored(run: Run)
  {
    && run.st.active.Some? && run.persisted != []
    && run.persisted[|run.persisted| - 1] == run.st.active.value
  }

  /** Window IDs are fresh, each attempt is stored at most once and completed only when it was stored last. */
  predicate Orderly(start: Start, ops: seq<Op>)
  {
    ops == [] ||
      (&& Orderly(start, ops[..|ops| - 1])
       && InOrder(UsedWindows(start, ops[..|ops| - 1]), RunFrom(start, ops[..|ops| - 1]), ops[|ops| - 1]))
  }

  /** Window of the last completed attempt among the first `n` stored ones. */
  function DoneBefore(stored: seq<Attempt>, completed: seq<Attempt>, n: nat, window: string): string
    requires n <= |stored|
  {
    if n == 0 then window
    else if stored[n - 1] in completed then stored[n - 1].windowID
    else DoneBefore(stored, completed, n - 1, window)
  }

  /** Every stored attempt links to the last completed one before it. */
  predicate LinksDone(stored: seq<Attempt>, completed: seq<Attempt>, window: string)
  {
    forall i :: 0 <= i < |stored| ==> stored[i].previousWindowID == DoneBefore(stored, completed, i, window)
  }

  predicate DistinctWindows(stored: seq<Attempt>, window: string)
  {
    && (forall i :: 0 <= i < |stored| ==> stored[i].windowID != window)
    && (forall i, j :: 0 <= i < j < |stored| ==> stored[i].windowID != stored[j].windowID)
  }

  /** Window numbers rise and the first window stays. */
  predicate Rising(stored: seq<Attempt>, first: string, number: nat)
  {
    forall i :: 0 <= i < |stored| ==>
      stored[i].firstWindowID == first && stored[i].windowNumber > NumberBefore(stored, i, number)
  }

  /** What an orderly run keeps, about windows. */
  predicate StoredWindows(used: set<string>, window: string, run: Run)
  {
    && window in used && DistinctWindows(run.persisted, window) && LinksDone(run.persisted, run.completed, window)
    && (forall i :: 0 <= i < |run.persisted| ==> run.persisted[i].windowID in used)
    && (forall a :: a in run.completed ==> a in run.persisted)
    && run.st.currentWindowID == DoneBefore(run.persisted, run.completed, |run.persisted|, window)
    && (run.st.active.Some? ==>
          && run.st.active.value.windowID in used && run.st.active.value.windowID != window
          && run.st.active.value !in run.completed
          && run.st.active.value.previousWindowID == run.st.currentWindowID
          && (IsLastStored(run) ||
                forall i :: 0 <= i < |run.persisted| ==> run.persisted[i].windowID != run.st.active.value.windowID))
  }

  /** What an orderly run keeps, about numbers. */
  predicate StoredNumbers(first: string, number: nat, run: Run)
  {
    var newest := NumberBefore(run.persisted, |run.persisted|, number);
    && Rising(run.persisted, first, number) && run.st.firstWindowID == first && newest <= run.st.windowNumber
    && (run.st.active.Some? ==>
          && run.st.active.value.firstWindowID == first && run.st.active.value.windowNumber == run.st.windowNumber
          && (IsLastStored(run) || newest < run.st.windowNumber))
  }

  lemma {:induction false} DoneIsEarlier(stored: seq<Attempt>, completed: seq<Attempt>, n: nat, window: string)
    requires n <= |stored|
    ensures DoneBefore(stored, completed, n, window) == window
         || exists j :: 0 <= j < n && DoneBefore(stored, completed, n, window) == stored[j].windowID
  {
    if n > 0 && stored[n - 1] !in completed {
      DoneIsEarlier(stored, completed, n - 1, window);
    }
  }

  /** Storing one more attempt leaves the positions before it alone. */
  lemma {:induction false} DoneStored(stored: seq<Attempt>, a: Attempt, completed: seq<Attempt>, n: nat, window: string)
    requires n <= |stored|
    ensures DoneBefore(stored + [a], completed, n, window) == DoneBefore(stored, completed, n, window)
  {
    if n > 0 {
      DoneStored(stored, a, completed, n - 1, window);
    }
  }

  /** So does completing an attempt that is not among them. */
  lemma {:induction false} DoneCompleted(stored: seq<Attempt>, completed: seq<Attempt>, a: Attempt, n: nat, window: string)
    requires n <= |stored| && forall i :: 0 <= i < n ==> stored[i] != a
    ensures DoneBefore(stored, completed + [a], n, window) == DoneBefore(stored, completed, n, window)
  {
    if n > 0 {
      DoneCompleted(stored, completed, a, n - 1, window);
    }
  }

  lemma LinksStored(stored: seq<Attempt>, a: Attempt, completed: seq<Attempt>, window: string)
    requires LinksDone(stored, completed, window) && a !in completed
    requires a.previousWindowID == DoneBefore(stored, completed, |stored|, window)
    ensures LinksDone(stored + [a], completed, window)
    ensures DoneBefore(stored + [a], completed, |stored| + 1, window) == DoneBefore(stored, completed, |stored|, window)
  {
    var now := stored + [a];
    forall i | 0 <= i < |now|
      ensures now[i].previousWindowID == DoneBefore(now, completed, i, window)
    {
      DoneStored(stored, a, completed, i, window);
    }
    DoneStored(stored, a, completed, |stored|, window);
  }

  lemma DistinctStored(stored: seq<Attempt>, a: Attempt, window: string)
    requires DistinctWindows(stored, window) && a.windowID != window
    requires forall i :: 0 <= i < |stored| ==> stored[i].windowID != a.windowID
    ensures DistinctWindows(stored + [a], window)
  {}

  lemma StoreKeepsWindows(used: set<string>, window: string, run: Run)
    requires StoredWindows(used, window, run) && run.st.active.Some? && !IsLastStored(run)
    ensures StoredWindows(used, window, Step(run, Persist))
  {
    hide DistinctWindows, LinksDone, DoneBefore;
    var a := run.st.active.value;
    LinksStored(run.persisted, a, run.completed, window);
    DistinctStored(run.persisted, a, window);
  }

  lemma CompleteKeepsWindows(used: set<string>, window: string, run: Run)
    requires StoredWindows(used, window, run) && IsLastStored(run)
    ensures StoredWindows(used, window, Step(run, Complete(true)))
  {
    var a, last := run.st.active.value, |run.persisted| - 1;
    var now := run.completed + [a];
    forall i | 0 <= i <= last
      ensures DoneBefore(run.persisted, now, i, window) == DoneBefore(run.persisted, run.completed, i, window)
    {
      DoneCompleted(run.persisted, run.completed, a, i, window);
    }
    assert a in now;
  }

  lemma StepKeepsWindows(used: set<string>, window: string, run: Run, op: Op)
    requires StoredWindows(used, window, run) && InOrder(used, run, op)
    ensures StoredWindows(used + (if op.Begin? then {op.windowID} else {}), window, Step(run, op))
  {
    hide DistinctWindows, LinksDone, DoneBefore;
    assert used + {} == used;
    match op
    case Begin(_, _, _, _, _) =>
    case Persist =>
      if run.st.active.Some? {
        StoreKeepsWindows(used, window, run);
      }
    case Complete(audited) =>
      if run.st.active.Some? && audited {
        CompleteKeepsWindows(used, window, run);
      }
    case Fail(_, _) =>
  }

  lemma RisingStored(stored: seq<Attempt>, a: Attempt, first: string, number: nat)
    requires Rising(stored, first, number)
    requires a.firstWindowID == first && a.windowNumber > NumberBefore(stored, |stored|, number)
    ensures Rising(stored + [a], first, number)
  {
    var now := stored + [a];
    forall i | 0 <= i < |now|
      ensures now[i].firstWindowID == first && now[i].windowNumber > NumberBefore(now, i, number)
    {
      BeforeAppend(stored, a, i, "", number);
      assert i < |stored| ==> now[i] == stored[i];
    }
  }

  lemma StepKeepsNumbers(used: set<string>, first: string, number: nat, run: Run, op: Op)
    requires StoredNumbers(first, number, run) && InOrder(used, run, op)
    requires op.Begin? ==> run.st.windowNumber + 1 < UINT64
    ensures StoredNumbers(first, number, Step(run, op))
  {
    hide Rising;
    match op
    case Begin(_, _, _, _, _) => NoWrap(run.st.windowNumber);
    case Persist =>
      if run.st.active.Some? {
        RisingStored(run.persisted, run.st.active.value, first, number);
      }
    case Complete(_) =>
    case Fail(_, _) =>
  }

  /** Every checkpoint that was stored, the last one aside, was also completed. */
  predicate AllButLastCompleted(run: Run)
  {
    forall i :: 0 <= i < |run.persisted| - 1 ==> run.persisted[i] in run.completed
  }

  lemma {:induction false} OrderlyRun(start: Start, ops: seq<Op>)
    requires Orderly(start, ops) && Initial(start).windowNumber + Begins(ops) < UINT64
    ensures var init := Initial(start);
            && StoredWindows(UsedWindows(start, ops), init.currentWindowID, RunFrom(start, ops))
            && StoredNumbers(init.firstWindowID, init.windowNumber, RunFrom(start, ops))
  {
    hide StoredWindows, StoredNumbers, InOrder;
    if ops == [] {
      NothingStored(start);
    } else {
      var before, op := ops[..|ops| - 1], ops[|ops| - 1];
      OrderlyRun(start, before);
      CompletedAttemptsChain(start, before);
      RunStep(start, ops);
      hide Linked, RunFrom, Begins;
      var used, init := UsedWindows(start, before), Initial(start);
      StepKeepsWindows(used, init.currentWindowID, RunFrom(start, before), op);
      StepKeepsNumbers(used, init.firstWindowID, init.windowNumber, RunFrom(start, before), op);
    }
  }

  lemma NothingStored(start: Start)
    ensures var init := Initial(start);
            && StoredWindows(UsedWindows(start, []), init.currentWindowID, RunFrom(start, []))
            && StoredNumbers(init.firstWindowID, init.windowNumber, RunFrom(start, []))
  {}

  /**
    In an orderly run the stored checkpoints form one chain, with one first window and
    rising numbers, if and only if every stored checkpoint but the last was completed.
   */
  lemma StoredChainExactly(start: Start, ops: seq<Op>)
    requires Orderly(start, ops) && Initial(start).windowNumber + Begins(ops) < UINT64
    ensures var run, init := RunFrom(start, ops), Initial(start);
            Chain(run.persisted, init.currentWindowID, init.firstWindowID, init.windowNumber) <==>
              AllButLastCompleted(run)
  {
    hide RunFrom, Orderly, Begins, UsedWindows, Chain, Rising, LinksDone, DistinctWindows, IsLastStored, DoneBefore;
    OrderlyRun(start, ops);
    var run, init := RunFrom(start, ops), Initial(start);
    var stored, done := run.persisted, run.completed;
    if AllLinked(stored) {
      forall i | 0 <= i < |stored| - 1
        ensures run.persisted[i] in run.completed
      {
        LinkIsDone(stored, done, i + 1, init.currentWindowID);
      }
    }
    if AllButLastCompleted(run) {
      forall i | 0 <= i < |stored| - 1
        ensures stored[i + 1].previousWindowID == stored[i].windowID
      {
        LinkIsDone(stored, done, i + 1, init.currentWindowID);
      }
    }
    FirstLink(stored, done, init.currentWindowID);
    ChainIsLinks(stored, init.currentWindowID, init.firstWindowID, init.windowNumber);
  }

  /** Each attempt links to the one before it. */
  predicate AllLinked(stored: seq<Attempt>)
  {
    forall i :: 0 <= i < |stored| - 1 ==> stored[i + 1].previousWindowID == stored[i].windowID
  }

  lemma FirstLink(stored: seq<Attempt>, completed: seq<Attempt>, window: string)
    requires LinksDone(stored, completed, window)
    ensures stored != [] ==> stored[0].previousWindowID == window
  {
    if stored != [] {
      assert stored[0].previousWindowID == DoneBefore(stored, completed, 0, window);
    }
  }

  /** A stored attempt links to the one before it exactly when that one was completed. */
  lemma LinkIsDone(stored: seq<Attempt>, completed: seq<Attempt>, i: nat, window: string)
    requires LinksDone(stored, completed, window) && DistinctWindows(stored, window) && 0 < i < |stored|
    ensures stored[i].previousWindowID == stored[i - 1].windowID <==> stored[i - 1] in completed
  {
    assert stored[i].previousWindowID == DoneBefore(stored, completed, i, window);
    DoneStep(stored, completed, i, window);
    hide *;
    EarlierIsOther(stored, completed, i, window);
  }

  lemma DoneStep(stored: seq<Attempt>, completed: seq<Attempt>, i: nat, window: string)
    requires 0 < i < |stored|
    ensures DoneBefore(stored, completed, i, window)
         == if stored[i - 1] in completed then stored[i - 1].windowID else DoneBefore(stored, completed, i - 1, window)
  {}

  lemma EarlierIsOther(stored: seq<Attempt>, completed: seq<Attempt>, i: nat, window: string)
    requires DistinctWindows(stored, window) && 0 < i < |stored|
    ensures DoneBefore(stored, completed, i - 1, window) != stored[i - 1].windowID
  {
    DoneIsEarlier(stored, completed, i - 1, window);
    hide DoneBefore;
    if DoneBefore(stored, completed, i - 1, window) != window {
      var j :| 0 <= j < i - 1 && DoneBefore(stored, completed, i - 1, window) == stored[j].windowID;
      assert stored[j].windowID != stored[i - 1].windowID;
    }
  }

  /** Among rising attempts a chain is a matter of the links alone. */
  lemma ChainIsLinks(stored: seq<Attempt>, window: string, first: string, number: nat)
    requires Rising(stored, first, number) && (stored != [] ==> stored[0].previousWindowID == window)
    ensures Chain(stored, window, first, number) <==> AllLinked(stored)
  {
    forall i | 0 < i < |stored|
      ensures stored[i - 1 + 1] == stored[i]
    {}
    forall i | 0 <= i < |stored|
      ensures Follows(stored[i], first, WindowBefore(stored, i, window), NumberBefore(stored, i, number)) <==>
                (i > 0 ==> stored[i].previousWindowID == stored[i - 1].windowID)
    {}
  }

  // ---------------------------------------------------------------- the object

  class Runtime {
    var active: Option<Attempt>
    var windowNumber: nat
    var firstWindowID: string
    var currentWindowID: string

    constructor (start: Start)
      ensures Value() == Initial(start)
    {
      active := None;
      match start
      case Fresh(id) => windowNumber, firstWindowID, currentWindowID := 0, id, id;
      case Resumed(n, first, id) => windowNumber, firstWindowID, currentWindowID := n, first, id;
    }

    function Value(): State
      reads this
    {
      State(active, windowNumber, firstWindowID, currentWindowID)
    }

    method BeginAttempt(id: string, windowID: string, priorTokens: int, tail: int, audited: bool) returns (ok: bool)
      modifies this
      ensures ok == audited
      ensures windowNumber == (old(windowNumber) + 1) % 0x1_0000_0000_0000_0000
      ensures firstWindowID == old(firstWindowID) && currentWindowID == old(currentWindowID)
      ensures active.Some? && active.value.id == id && active.value.windowNumber == windowNumber
      ensures active.value.firstWindowID == old(firstWindowID) && active.value.previousWindowID == old(currentWindowID)
      ensures active.value.windowID == windowID && active.value.priorTokens == priorTokens
      ensures active.value.compactedThrough >= 0
      ensures active.value.compactedThrough == tail || (active.value.compactedThrough == 0 && tail < 0)
      ensures forall run: Run :: run.st == old(Value()) ==>
                Step(run, Begin(id, windowID, priorTokens, tail, audited)).st == Value()
    {
      windowNumber := (windowNumber + 1) % UINT64;
      var through := if tail < 0 then 0 else tail;
      active := Some(Attempt(id, windowNumber, firstWindowID, currentWindowID, windowID, priorTokens, through));
      return audited;
    }

    method CompleteAttempt(audited: bool) returns (completed: Option<Attempt>)
      modifies this
      ensures completed == if audited then old(active) else None
      ensures completed.Some? ==> active == None && currentWindowID == old(active).value.windowID
      ensures completed.None? ==> active == old(active) && currentWindowID == old(currentWindowID)
      ensures windowNumber == old(windowNumber) && firstWindowID == old(firstWindowID)
      ensures forall run: Run :: run.st == old(Value()) ==>
                Step(run, Complete(audited)).st == Value()
                && Step(run, Complete(audited)).completed
                   == run.completed + if completed.Some? then [completed.value] else []
    {
      if active.None? || !audited {
        return None;
      }
      completed := active;
      currentWindowID := active.value.windowID;
      active := None;
    }

    method FailAttempt(caused: bool, audited: bool)
      modifies this
      ensures active == if caused then None else old(active)
      ensures windowNumber == old(windowNumber) && firstWindowID == old(firstWindowID)
      ensures currentWindowID == old(currentWindowID)
      ensures forall run: Run :: run.st == old(Value()) ==> Step(run, Fail(caused, audited)).st == Value()
    {
      if caused && active.Some? {
        active := None;
      }
    }
  }
}
