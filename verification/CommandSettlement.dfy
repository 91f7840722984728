/**
  Late receipts of interrupted commands: a row of the run audit may move to the receipt's
  result, and once it holds a confirmed result it never moves again.
 */
module CommandSettlement {
  import opened Wrappers
  import opened Text
  import Seqs

  const EXEC_COMMAND := "exec_command"
  const UNOBSERVED := "command_outcome_unobserved"
  const MAX_TOOLS := 128
  const MAX_SUMMARY := 256

  datatype Diagnostic = Diagnostic(code: string, message: string)

  /** `rest` stands for the mutation and recovery fields. */
  datatype Row = Row(
    id: string, name: string, path: string, status: string, summary: string, atOffset: int,
    diagnostic: Option<Diagnostic>, rest: string)

  type Rows = seq<Row>

  /** `rest` stands for everything but the tool rows. */
  datatype Audit = Audit(tools: Rows, startedAt: Option<int>, rest: string)

  /** The stored audit: missing, unreadable, or a document. */
  datatype Stored = Missing | Unreadable | Document(audit: Audit)

  /**
    A tool event. The base name, the summary, the diagnostic, the path and the offset are
    functions of the event that are not modelled.
   */
  datatype Event = Event(
    baseName: string, id: string, status: string, summary: string, diagnostic: Option<Diagnostic>, path: string,
    offsetFrom: int -> int)

  /** strings.ToLower against a lower-case ASCII word. */
  predicate Lowers(s: string, word: string)
  {
    |s| == |word| && forall i :: 0 <= i < |s| ==> LowersTo(s[i], word[i])
  }

  predicate LowersTo(c: char, lower: char)
  {
    || (c == lower && !('A' <= c <= 'Z'))
    || ('a' <= lower <= 'z' && 'A' <= c <= 'Z' && c as int + 32 == lower as int)
    || (lower == 'k' && c == '\U{212A}')
    || (lower == 'i' && c == '\U{0130}')
  }

  /** projectAssistantAuditString, on text of one byte per character. */
  function Bounded(value: string): string
  {
    var t := Trim(value);
    if |t| <= MAX_SUMMARY then t else Trim(t[..MAX_SUMMARY])
  }

  /** projectAssistantToolCallCanSettleStopping. */
  predicate Settles(status: string)
  {
    var s := Trim(status);
    || Lowers(s, "succeeded") || Lowers(s, "failed") || Lowers(s, "canceled") || Lowers(s, "cancelled")
    || Lowers(s, "timed_out") || Lowers(s, "blocked") || Lowers(s, "rejected") || Lowers(s, "stale")
    || Lowers(s, "not_executed") || Lowers(s, "skipped")
  }

  lemma SettlesIsShort(status: string)
    requires Settles(status)
    ensures Bounded(status) == Trim(status) && Trim(status) != "running"
  {}

  predicate UnobservedStatus(status: string)
  {
    var s := Trim(status);
    Lowers(s, "failed") || Lowers(s, "outcome_unknown") || Lowers(s, "unverifiable") || Lowers(s, "error")
  }

  predicate UnobservedResult(row: Row)
  {
    row.name == EXEC_COMMAND && row.diagnostic.Some? && row.diagnostic.value.code == UNOBSERVED
    && UnobservedStatus(row.status)
  }

  /** A command row that still waits for its result. */
  predicate Open(row: Row)
  {
    row.name == EXEC_COMMAND && (row.status == "running" || UnobservedResult(row))
  }

  /** The row already holds exactly the result of the event. */
  predicate Identical(row: Row, e: Event)
  {
    row.status == e.status && row.summary == e.summary && row.diagnostic == e.diagnostic
  }

  function SettledRow(row: Row, e: Event): Row
  {
    row.(status := Bounded(e.status), summary := e.summary, diagnostic := e.diagnostic)
  }

  function NewRow(audit: Audit, e: Event): Row
  {
    Row(Bounded(e.id), EXEC_COMMAND, e.path, Bounded(e.status), e.summary,
        if audit.startedAt.Some? then e.offsetFrom(audit.startedAt.value) else 0, e.diagnostic, "")
  }

  // ---------------------------------------------------------------- the walk over the rows

  datatype Walk = Refused | Repeated | Going(rows: Rows, found: bool)

  function Visit(e: Event, before: Walk, row: Row): Walk
  {
    match before
    case Refused => Refused
    case Repeated => Repeated
    case Going(rows, found) =>
      if row.id != Bounded(e.id) then Going(rows + [row], found)
      else if found || row.name != EXEC_COMMAND then Refused
      else if !Open(row) then (if Identical(row, e) then Repeated else Refused)
      else Going(rows + [SettledRow(row, e)], true)
  }

  function Walked(e: Event, rows: Rows): Walk
  {
    if rows == [] then Going([], false) else Visit(e, Walked(e, rows[..|rows| - 1]), rows[|rows| - 1])
  }

  predicate Acceptable(e: Event)
  {
    e.baseName == EXEC_COMMAND && Settles(e.status) && Trim(e.id) != ""
  }

  function AuditOf(raw: Stored): Option<Audit>
  {
    match raw case Missing => Some(Audit([], None, "")) case Unreadable => None case Document(audit) => Some(audit)
  }

  function Concluded(raw: Stored, audit: Audit, e: Event): Option<Stored>
  {
    match Walked(e, audit.tools)
    case Refused => None
    case Repeated => Some(raw)
    case Going(rows, found) =>
      if found then Some(Document(audit.(tools := rows)))
      else if |audit.tools| >= MAX_TOOLS then Some(raw)
      else Some(Document(audit.(tools := rows + [NewRow(audit, e)])))
  }

  function Settled(raw: Stored, e: Event): Option<Stored>
  {
    if !Acceptable(e) || AuditOf(raw).None? then None else Concluded(raw, AuditOf(raw).value, e)
  }

  lemma {:induction false} WalkStops(e: Event, rows: Rows, n: nat)
    requires n <= |rows| && !Walked(e, rows[..n]).Going?
    ensures Walked(e, rows) == Walked(e, rows[..n])
    decreases |rows| - n
  {
    hide Bounded, Open, Identical, SettledRow;
    if n == |rows| {
      assert rows[..n] == rows;
    } else {
      assert rows[..n + 1][..n] == rows[..n];
      WalkStops(e, rows, n + 1);
    }
  }

  lemma WalkStep(e: Event, rows: Rows, n: nat)
    requires n < |rows|
    ensures Walked(e, rows[..n + 1]) == Visit(e, Walked(e, rows[..n]), rows[n])
  {
    hide Visit;
    assert rows[..n + 1][..n] == rows[..n];
  }

  lemma LoopStep(e: Event, rows: Rows, index: nat, done: Rows, found: bool)
    requires |done| == index < |rows| && Walked(e, rows[..index]) == Going(done, found)
    ensures var tools, row := done + rows[index..], rows[index];
            && tools[index] == row && tools == (done + [row]) + rows[index + 1..]
            && tools[index := SettledRow(row, e)] == (done + [SettledRow(row, e)]) + rows[index + 1..]
            && Walked(e, rows[..index + 1]) == Visit(e, Going(done, found), row)
    ensures !Walked(e, rows[..index + 1]).Going? ==> Walked(e, rows) == Walked(e, rows[..index + 1])
  {
    hide Visit, Walked, SettledRow;
    WalkStep(e, rows, index);
    Seqs.Suffix(rows, index);
    Seqs.ReplaceHead(done, rows[index..], SettledRow(rows[index], e));
    if !Walked(e, rows[..index + 1]).Going? {
      WalkStops(e, rows, index + 1);
    }
  }

  /** The loop over the rows, which edits them in place. */
  method WalkRows(e: Event, rows: Rows) returns (r: Walk)
    ensures r == Walked(e, rows)
  {
    hide Bounded, Walked, Open, Identical, SettledRow;
    var callID := Bounded(e.id);
    var tools, found := rows, false;
    ghost var done: Rows := [];
    assert Walked(e, rows[..0]) == Going([], false) by { NothingWalked(e); }
    for index := 0 to |rows|
      invariant |done| == index && tools == done + rows[index..]
      invariant Walked(e, rows[..index]) == Going(done, found)
    {
      LoopStep(e, rows, index, done, found);
      var entry := tools[index];
      if entry.id != callID {
        done := done + [entry];
        continue;
      }
      if found || entry.name != EXEC_COMMAND {
        return Refused;
      }
      if !Open(entry) {
        return if Identical(entry, e) then Repeated else Refused;
      }
      found := true;
      tools := tools[index := SettledRow(entry, e)];
      done := done + [SettledRow(entry, e)];
    }
    assert rows[..|rows|] == rows && tools == done;
    return Going(tools, found);
  }

  /** projectAssistantAuditInterruptedExecUpdate; None refuses the receipt. */
  method SettleExec(raw: Stored, e: Event) returns (r: Option<Stored>)
    ensures r == Settled(raw, e)
  {
    hide Settles, Bounded, Walked, NewRow, Trim;
    if e.baseName != EXEC_COMMAND || !Settles(e.status) || Trim(e.id) == "" {
      return None;
    }
    match AuditOf(raw)
    case None => return None;
    case Some(audit) =>
      var walk := WalkRows(e, audit.tools);
      match walk {
        case Refused => return None;
        case Repeated => return Some(raw);
        case Going(rows, found) =>
          if found {
            return Some(Document(audit.(tools := rows)));
          }
          if |audit.tools| >= MAX_TOOLS {
            return Some(raw);
          }
          return Some(Document(audit.(tools := rows + [NewRow(audit, e)])));
      }
  }

  lemma NothingWalked(e: Event)
    ensures Walked(e, []) == Going([], false)
  {}

  // ---------------------------------------------------------------- what a receipt can change

  /** The receipt's own row, as far as it is still open. */
  predicate Changeable(e: Event, row: Row) { row.id == Bounded(e.id) && Open(row) }

  /** Rows before and after: only an open row of the receipt's call changes, to its result. */
  predicate RowsKept(e: Event, before: Rows, after: Rows)
  {
    && |after| == |before|
    && forall i :: 0 <= i < |before| ==>
         after[i] == if Changeable(e, before[i]) then SettledRow(before[i], e) else before[i]
  }

  predicate Mentions(e: Event, rows: Rows)
  {
    exists i :: 0 <= i < |rows| && rows[i].id == Bounded(e.id)
  }

  lemma {:induction false} WalkMeaning(e: Event, rows: Rows)
    requires Walked(e, rows).Going?
    ensures RowsKept(e, rows, Walked(e, rows).rows)
    ensures Walked(e, rows).found <==> Mentions(e, rows)
    ensures forall i :: 0 <= i < |rows| && rows[i].id == Bounded(e.id) ==> Open(rows[i])
    ensures forall i, j :: 0 <= i < j < |rows| && rows[i].id == Bounded(e.id) ==> rows[j].id != Bounded(e.id)
  {
    hide Bounded, Open, Identical, SettledRow;
    if rows != [] {
      var init, row := rows[..|rows| - 1], rows[|rows| - 1];
      WalkMeaning(e, init);
      assert rows == init + [row];
      if row.id == Bounded(e.id) {
        assert rows[|rows| - 1].id == Bounded(e.id);
      }
      if Mentions(e, init) {
        var i :| 0 <= i < |init| && init[i].id == Bounded(e.id);
        assert rows[i].id == Bounded(e.id);
      }
    }
  }

  /**
    An accepted receipt leaves every row but its own open one as it is, adds at most one
    row, and only when the call has none and there is room.
   */
  lemma SettlementMeaning(raw: Stored, e: Event)
    requires Settled(raw, e).Some?
    ensures Settled(raw, e).value == raw ||
              (Settled(raw, e).value.Document? && AuditOf(raw).Some?
               && var before, after := AuditOf(raw).value, Settled(raw, e).value.audit;
                  && after == before.(tools := after.tools)
                  && |before.tools| <= |after.tools| <= |before.tools| + 1
                  && RowsKept(e, before.tools, after.tools[..|before.tools|])
                  && (|after.tools| > |before.tools| ==>
                        !Mentions(e, before.tools) && |before.tools| < MAX_TOOLS
                        && after.tools[|before.tools|] == NewRow(before, e)))
  {
    hide Settles, Bounded, Walked, RowsKept, Open, NewRow, Trim, Mentions;
    var audit := AuditOf(raw).value;
    if Walked(e, audit.tools).Going? {
      WalkMeaning(e, audit.tools);
      var rows := Walked(e, audit.tools).rows;
      assert (rows + [NewRow(audit, e)])[..|rows|] == rows && rows[..|rows|] == rows;
      RowsKeptLength(e, audit.tools, rows);
    }
  }

  lemma RowsKeptLength(e: Event, before: Rows, after: Rows)
    requires RowsKept(e, before, after)
    ensures |after| == |before|
  {
    hide Open, SettledRow, Bounded;
  }

  // ---------------------------------------------------------------- replaying a receipt

  /** Once written, the row of a receipt answers the same receipt again. */
  predicate Answered(e: Event) { e.status == Trim(e.status) || UnobservedResult(SettledRow(BlankRow(e), e)) }

  function BlankRow(e: Event): Row { Row(Bounded(e.id), EXEC_COMMAND, "", "", "", 0, None, "") }

  lemma WrittenRow(row: Row, e: Event)
    requires row.name == EXEC_COMMAND && Settles(e.status)
    requires row.status == Bounded(e.status) && row.summary == e.summary && row.diagnostic == e.diagnostic
    ensures SettledRow(row, e) == row
    ensures Open(row) <==> UnobservedResult(SettledRow(BlankRow(e), e))
    ensures Identical(row, e) <==> e.status == Trim(e.status)
  {
    hide Settles, Trim, UnobservedStatus, Bounded;
    SettlesIsShort(e.status);
  }

  /** A row list whose only row of the call was written by the receipt. */
  lemma {:induction false} WalkWritten(e: Event, rows: Rows)
    requires Settles(e.status)
    requires forall i :: 0 <= i < |rows| && rows[i].id == Bounded(e.id) ==>
               && rows[i].name == EXEC_COMMAND && rows[i].status == Bounded(e.status)
               && rows[i].summary == e.summary && rows[i].diagnostic == e.diagnostic
    requires forall i, j :: 0 <= i < j < |rows| && rows[i].id == Bounded(e.id) ==> rows[j].id != Bounded(e.id)
    ensures Walked(e, rows)
         == if !Mentions(e, rows) then Going(rows, false)
            else if UnobservedResult(SettledRow(BlankRow(e), e)) then Going(rows, true)
            else if e.status == Trim(e.status) then Repeated
            else Refused
  {
    hide Settles, Bounded, Open, Identical, SettledRow, UnobservedResult, Trim;
    if rows != [] {
      var init, row := rows[..|rows| - 1], rows[|rows| - 1];
      assert rows == init + [row];
      WalkWritten(e, init);
      if row.id == Bounded(e.id) {
        assert rows[|rows| - 1].id == Bounded(e.id);
        assert !Mentions(e, init);
        WrittenRow(row, e);
      }
      if Mentions(e, init) {
        var i :| 0 <= i < |init| && init[i].id == Bounded(e.id);
        assert rows[i].id == Bounded(e.id);
      }
    }
  }

  /** The rows after a write: the call has exactly one, and it holds the result. */
  lemma WriteLeavesOne(audit: Audit, e: Event)
    requires Acceptable(e) && Walked(e, audit.tools).Going?
    requires Walked(e, audit.tools).found || |audit.tools| < MAX_TOOLS
    ensures Concluded(Document(audit), audit, e).Some? && Concluded(Document(audit), audit, e).value.Document?
    ensures var rows := Concluded(Document(audit), audit, e).value.audit.tools;
            && Mentions(e, rows)
            && (forall i :: 0 <= i < |rows| && rows[i].id == Bounded(e.id) ==>
                  && rows[i].name == EXEC_COMMAND && rows[i].status == Bounded(e.status)
                  && rows[i].summary == e.summary && rows[i].diagnostic == e.diagnostic)
            && (forall i, j :: 0 <= i < j < |rows| && rows[i].id == Bounded(e.id) ==> rows[j].id != Bounded(e.id))
  {
    hide Settles, Bounded, Walked, UnobservedResult, Trim;
    WalkMeaning(e, audit.tools);
    var rows := Concluded(Document(audit), audit, e).value.audit.tools;
    if Walked(e, audit.tools).found {
      var i :| 0 <= i < |audit.tools| && audit.tools[i].id == Bounded(e.id);
      assert rows[i].id == Bounded(e.id);
    } else {
      assert rows[|audit.tools|].id == Bounded(e.id);
      forall i | 0 <= i < |audit.tools|
        ensures rows[i] == audit.tools[i] && rows[i].id != Bounded(e.id)
      {}
    }
  }

  /** The receipt changed the audit, rather than repeating it or finding it full. */
  predicate Wrote(raw: Stored, e: Event)
  {
    && Acceptable(e) && AuditOf(raw).Some? && Walked(e, AuditOf(raw).value.tools).Going?
    && (Walked(e, AuditOf(raw).value.tools).found || |AuditOf(raw).value.tools| < MAX_TOOLS)
  }

  /**
    Replaying an accepted receipt gives the same audit, except that a receipt which was
    written from an untrimmed status and is no unobserved result is refused the second time.
    The document is taken to be read back as it was stored: a text cut inside a rune, which
    storing would rewrite, is not modelled.
   */
  lemma ReplayExactly(raw: Stored, e: Event)
    requires Settled(raw, e).Some?
    ensures var s := Settled(raw, e).value;
            && (Settled(s, e) == Some(s) <==> (Wrote(raw, e) ==> Answered(e)))
            && (Settled(s, e) != Some(s) ==> Settled(s, e) == None)
  {
    hide Settles, Bounded, Walked, UnobservedResult, Trim, Mentions, NewRow;
    var audit := AuditOf(raw).value;
    if Wrote(raw, e) {
      WriteLeavesOne(audit, e);
      var s := Settled(raw, e).value;
      assert Some(s) == Concluded(Document(audit), audit, e);
      WalkWritten(e, s.audit.tools);
    }
  }

  lemma StaleTrimmed()
    ensures Trim(" stale") == "stale" && Trim("c") == "c"
  {
    TrimTight("stale");
    TrimTight("c");
    assert TrimLeft(" stale") == TrimLeft("stale") by { assert " stale"[1..] == "stale"; }
  }

  lemma StaleSettles()
    ensures Settles(" stale") && " stale" != "stale"
  {
    hide Trim;
    StaleTrimmed();
    assert " stale"[0] != "stale"[0];
  }

  /** A receipt whose status carries a space is written, and refused when it is replayed. */
  lemma UntrimmedReplayIsRefused()
    ensures var e := Event(EXEC_COMMAND, "c", " stale", "", None, "", (at: int) => 0);
            Settled(Missing, e).Some? && Settled(Settled(Missing, e).value, e) == None
  {
    hide Trim, Settles, Bounded, NewRow, UnobservedStatus;
    var e := Event(EXEC_COMMAND, "c", " stale", "", None, "", (at: int) => 0);
    StaleTrimmed();
    StaleSettles();
    NothingWalked(e);
    ReplayExactly(Missing, e);
  }

  // ---------------------------------------------------------------- runs

  /** A refused receipt leaves the audit as it is. */
  function Run(raw: Stored, events: seq<Event>): Stored
  {
    if events == [] then raw
    else
      var before := Run(raw, events[..|events| - 1]);
      match Settled(before, events[|events| - 1]) case None => before case Some(after) => after
  }

  /** 0 for a running command, 1 for an unobserved result, 2 for everything final. */
  function Stage(row: Row): int { if !Open(row) then 2 else if row.status == "running" then 0 else 1 }

  /** The row later on: the same call, no stage back, and unchanged once final. */
  predicate Later(before: Row, after: Row)
  {
    && after == before.(status := after.status, summary := after.summary, diagnostic := after.diagnostic)
    && Stage(before) <= Stage(after) && (Stage(before) == 2 ==> after == before)
  }

  predicate Grows(before: Rows, after: Rows)
  {
    && |before| <= |after| && (|before| <= MAX_TOOLS ==> |after| <= MAX_TOOLS)
    && (|before| > MAX_TOOLS ==> |after| == |before|)
    && forall i :: 0 <= i < |before| ==> Later(before[i], after[i])
  }

  lemma SettledIsLater(row: Row, e: Event)
    requires Settles(e.status) && Open(row)
    ensures Later(row, SettledRow(row, e))
  {
    hide Settles, UnobservedStatus, Trim;
    SettlesIsShort(e.status);
  }

  lemma GrowsStep(raw: Stored, e: Event)
    requires Settled(raw, e).Some?
    ensures AuditOf(raw).Some? && AuditOf(Settled(raw, e).value).Some?
    ensures Grows(AuditOf(raw).value.tools, AuditOf(Settled(raw, e).value).value.tools)
  {
    hide Settles, Bounded, Walked, Trim, Mentions, NewRow, Later, SettledRow, Open;
    var before, after := AuditOf(raw).value.tools, AuditOf(Settled(raw, e).value).value.tools;
    SettlementMeaning(raw, e);
    forall i | 0 <= i < |before|
      ensures Later(before[i], after[i])
    {
      LaterSame(before[i]);
      if Settled(raw, e).value != raw {
        assert after[..|before|][i] == after[i];
        if Changeable(e, before[i]) {
          SettledIsLater(before[i], e);
        }
      }
    }
  }

  lemma LaterSame(row: Row)
    ensures Later(row, row)
  {
    hide Open;
  }

  lemma GrowsTwice(a: Rows, b: Rows, c: Rows)
    requires Grows(a, b) && Grows(b, c)
    ensures Grows(a, c)
  {
    hide Open;
  }

  /**
    Over any run of receipts, rows keep their place and their call, only move towards a
    confirmed result, are frozen once they have it, and never outgrow the bound.
   */
  lemma {:induction false} SettlementIsMonotone(raw: Stored, events: seq<Event>)
    requires AuditOf(raw).Some?
    ensures AuditOf(Run(raw, events)).Some?
    ensures Grows(AuditOf(raw).value.tools, AuditOf(Run(raw, events)).value.tools)
    decreases |events|
  {
    hide Settled, Grows;
    if events == [] {
      GrowsNone(AuditOf(raw).value.tools);
    } else {
      var init, e := events[..|events| - 1], events[|events| - 1];
      SettlementIsMonotone(raw, init);
      var before := Run(raw, init);
      if Settled(before, e).Some? {
        GrowsStep(before, e);
        GrowsTwice(AuditOf(raw).value.tools, AuditOf(before).value.tools, AuditOf(Settled(before, e).value).value.tools);
      }
    }
  }

  lemma GrowsNone(rows: Rows)
    ensures Grows(rows, rows)
  {
    hide Open, Later;
    forall i | 0 <= i < |rows|
      ensures Later(rows[i], rows[i])
    {
      LaterSame(rows[i]);
    }
  }
}
