/**
  What a late command receipt does to an audit, on the fields of its rows: which receipts are
  taken, which row answers, and what becomes of it.
 */
module SettlementReading {
  import opened Wrappers
  import opened Text
  import opened CommandSettlement

  // ---------------------------------------------------------------- words

  /** Simple lower-casing of a character, as far as its result can be an ASCII letter. */
  function LowerChar(c: char): char
  {
    if 'A' <= c <= 'Z' then (c as int + 32) as char
    else if c == '\U{212A}' then 'k'
    else if c == '\U{0130}' then 'i'
    else c
  }

  function Lower(s: string): (r: string)
    ensures |r| == |s| && forall i :: 0 <= i < |s| ==> r[i] == LowerChar(s[i])
  {
    if s == "" then "" else [LowerChar(s[0])] + Lower(s[1..])
  }

  /** A word in lower-case letters and underscores. */
  predicate Word(s: string)
  {
    forall i :: 0 <= i < |s| ==> 'a' <= s[i] <= 'z' || s[i] == '_'
  }

  lemma LowersIs(s: string, word: string)
    requires Word(word)
    ensures Lowers(s, word) <==> Lower(s) == word
  {
    forall c: char, w: char | 'a' <= w <= 'z' || w == '_'
      ensures LowersTo(c, w) <==> LowerChar(c) == w
    {}
    hide LowersTo, LowerChar;
    if Lowers(s, word) {
      assert forall i :: 0 <= i < |s| ==> Lower(s)[i] == word[i];
    }
    if Lower(s) == word {
      assert forall i :: 0 <= i < |s| ==> Lower(s)[i] == word[i];
    }
  }

  /** A status that settles a command. */
  predicate Final(status: string)
  {
    var s := Lower(Trim(status));
    || s == "succeeded" || s == "failed" || s == "canceled" || s == "cancelled" || s == "timed_out" || s == "blocked"
    || s == "rejected" || s == "stale" || s == "not_executed" || s == "skipped"
  }

  /** A status that leaves open what a command did. */
  predicate Unsure(status: string)
  {
    var s := Lower(Trim(status));
    s == "failed" || s == "outcome_unknown" || s == "unverifiable" || s == "error"
  }

  lemma FinalIs(status: string)
    ensures Settles(status) <==> Final(status)
  {
    hide Lowers, Lower, Trim;
    var s := Trim(status);
    LowersIs(s, "succeeded");
    LowersIs(s, "failed");
    LowersIs(s, "canceled");
    LowersIs(s, "cancelled");
    LowersIs(s, "timed_out");
    LowersIs(s, "blocked");
    LowersIs(s, "rejected");
    LowersIs(s, "stale");
    LowersIs(s, "not_executed");
    LowersIs(s, "skipped");
  }

  lemma UnsureIs(status: string)
    ensures UnobservedStatus(status) <==> Unsure(status)
  {
    hide Lowers, Lower, Trim;
    var s := Trim(status);
    LowersIs(s, "failed");
    LowersIs(s, "outcome_unknown");
    LowersIs(s, "unverifiable");
    LowersIs(s, "error");
  }

  // ---------------------------------------------------------------- rows

  /** `r` is the trimmed text, cut to 256 characters and trimmed again if it is longer. */
  predicate Short(value: string, r: string)
  {
    var t := Trim(value);
    (|t| <= 256 && r == t) || (|t| > 256 && r == Trim(t[..256]))
  }

  lemma ShortIs(value: string)
    ensures forall r :: Short(value, r) <==> r == Bounded(value)
  {
    hide Trim;
  }

  /** The command of the row is running, or ended without being observed. */
  predicate Unfinished(row: Row)
  {
    && row.name == "exec_command"
    && (row.status == "running"
        || (row.diagnostic.Some? && row.diagnostic.value.code == "command_outcome_unobserved" && Unsure(row.status)))
  }

  lemma UnfinishedIs(row: Row)
    ensures Open(row) <==> Unfinished(row)
  {
    hide UnobservedStatus, Unsure;
    UnsureIs(row.status);
  }

  /** Row `k` is the first of this call. */
  predicate FirstOf(rows: Rows, id: string, k: nat)
  {
    k < |rows| && rows[k].id == id && forall i :: 0 <= i < k ==> rows[i].id != id
  }

  lemma {:induction false} WalkNone(e: Event, rows: Rows)
    requires forall i :: 0 <= i < |rows| ==> rows[i].id != Bounded(e.id)
    ensures Walked(e, rows) == Going(rows, false)
  {
    hide Bounded, Open, Identical, SettledRow;
    if rows != [] {
      WalkNone(e, rows[..|rows| - 1]);
      assert rows == rows[..|rows| - 1] + [rows[|rows| - 1]];
    }
  }

  /** Behind a settled row the walk goes on as long as no other row has the call. */
  lemma {:induction false} WalkFound(e: Event, rows: Rows, k: nat, n: nat)
    requires FirstOf(rows, Bounded(e.id), k) && k < n <= |rows|
    requires rows[k].name == EXEC_COMMAND && Open(rows[k])
    ensures Walked(e, rows[..n])
         == if exists j :: k < j < n && rows[j].id == Bounded(e.id) then Refused
            else Going(rows[..k] + [SettledRow(rows[k], e)] + rows[k + 1..n], true)
    decreases n
  {
    hide Bounded, Open, Identical, SettledRow, Walked;
    WalkStep(e, rows, n - 1);
    if n == k + 1 {
      WalkNone(e, rows[..k]);
      assert rows[..k] + [SettledRow(rows[k], e)] + rows[k + 1..n] == rows[..k] + [SettledRow(rows[k], e)];
    } else {
      WalkFound(e, rows, k, n - 1);
      assert rows[k + 1..n] == rows[k + 1..n - 1] + [rows[n - 1]];
      var head := rows[..k] + [SettledRow(rows[k], e)];
      assert head + rows[k + 1..n - 1] + [rows[n - 1]] == head + rows[k + 1..n];
    }
  }

  /** A first row that does not take the receipt ends the walk. */
  lemma WalkEnds(e: Event, rows: Rows, k: nat)
    requires FirstOf(rows, Bounded(e.id), k) && !(rows[k].name == EXEC_COMMAND && Open(rows[k]))
    ensures Walked(e, rows) == if rows[k].name == EXEC_COMMAND && Identical(rows[k], e) then Repeated else Refused
  {
    hide Bounded, Open, Identical, SettledRow, Walked;
    WalkNone(e, rows[..k]);
    WalkStep(e, rows, k);
    WalkStops(e, rows, k + 1);
  }

  /** What the walk over the rows comes to, by the first row of the call. */
  lemma WalkByFirst(e: Event, rows: Rows, k: nat)
    requires FirstOf(rows, Bounded(e.id), k)
    ensures Walked(e, rows)
         == if rows[k].name != EXEC_COMMAND then Refused
            else if !Open(rows[k]) then (if Identical(rows[k], e) then Repeated else Refused)
            else if exists j :: k < j < |rows| && rows[j].id == Bounded(e.id) then Refused
            else Going(rows[k := SettledRow(rows[k], e)], true)
  {
    hide Bounded, Identical, SettledRow, Walked, UnobservedResult;
    if rows[k].name == EXEC_COMMAND && Open(rows[k]) {
      WalkFound(e, rows, k, |rows|);
      assert rows[..|rows|] == rows;
      assert rows[..k] + [SettledRow(rows[k], e)] + rows[k + 1..|rows|] == rows[k := SettledRow(rows[k], e)];
    } else {
      WalkEnds(e, rows, k);
    }
  }

  // ---------------------------------------------------------------- the receipt

  /** The row with the result of the receipt; nothing else of it changes. */
  predicate ResultOf(row: Row, e: Event, after: Row)
  {
    && after.id == row.id && after.name == row.name && after.path == row.path && after.atOffset == row.atOffset
    && after.rest == row.rest
    && Short(e.status, after.status) && after.summary == e.summary && after.diagnostic == e.diagnostic
  }

  /** The row of a command that had none. */
  predicate RowOf(audit: Audit, e: Event, row: Row)
  {
    && Short(e.id, row.id) && row.name == "exec_command" && row.path == e.path && row.rest == ""
    && Short(e.status, row.status) && row.summary == e.summary && row.diagnostic == e.diagnostic
    && row.atOffset == match audit.startedAt case None => 0 case Some(at) => e.offsetFrom(at)
  }

  /** What an audit with these rows becomes: refused, unchanged, one row settled, or one row added. */
  predicate BecomesAt(raw: Stored, audit: Audit, e: Event, id: string, k: nat, r: Option<Stored>)
    requires k < |audit.tools|
  {
    var rows := audit.tools;
    if rows[k].name != "exec_command" then r == None
      else if !Unfinished(rows[k])
      then r == if rows[k].status == e.status && rows[k].summary == e.summary && rows[k].diagnostic == e.diagnostic
                then Some(raw) else None
      else if exists j :: k < j < |rows| && rows[j].id == id then r == None
      else
        && r.Some? && r.value.Document? && r.value.audit.startedAt == audit.startedAt && r.value.audit.rest == audit.rest
        && |r.value.audit.tools| == |rows| && ResultOf(rows[k], e, r.value.audit.tools[k])
        && forall i :: 0 <= i < |rows| && i != k ==> r.value.audit.tools[i] == rows[i]
  }

  predicate Grows(raw: Stored, audit: Audit, e: Event, r: Option<Stored>)
  {
    var rows := audit.tools;
    if |rows| >= 128 then r == Some(raw)
    else
      && r.Some? && r.value.Document? && r.value.audit.startedAt == audit.startedAt && r.value.audit.rest == audit.rest
      && |r.value.audit.tools| == |rows| + 1 && r.value.audit.tools[..|rows|] == rows
      && RowOf(audit, e, r.value.audit.tools[|rows|])
  }

  /** An audit that is missing is an empty one. */
  function Given(raw: Stored): Audit
    requires !raw.Unreadable?
  {
    match raw case Missing => Audit([], None, "") case Document(audit) => audit
  }

  /**
    A receipt is refused unless it is the final result of a command with an ID and the audit
    can be read. The first row of the call decides: one of another tool refuses it; a finished
    one takes it only if it says the same, and then nothing changes; an unfinished one gets
    the result, unless another row has the call. Without a row one is added, up to 128.
   */
  lemma SettledByFields(raw: Stored, e: Event, id: string)
    requires Short(e.id, id)
    ensures !(e.baseName == "exec_command" && Final(e.status) && Trim(e.id) != "") || raw.Unreadable? ==>
              Settled(raw, e) == None
    ensures e.baseName == "exec_command" && Final(e.status) && Trim(e.id) != "" && !raw.Unreadable? ==>
              && (forall k: nat :: FirstOf(Given(raw).tools, id, k) ==> BecomesAt(raw, Given(raw), e, id, k, Settled(raw, e)))
              && ((forall i :: 0 <= i < |Given(raw).tools| ==> Given(raw).tools[i].id != id) ==>
                    Grows(raw, Given(raw), e, Settled(raw, e)))
  {
    hide Trim, Settles, Final, Bounded, Short, Walked, NewRow, BecomesAt, Grows;
    FinalIs(e.status);
    ShortIs(e.id);
    if e.baseName == "exec_command" && Final(e.status) && Trim(e.id) != "" && !raw.Unreadable? {
      var audit := Given(raw);
      forall k: nat | FirstOf(audit.tools, id, k)
        ensures BecomesAt(raw, audit, e, id, k, Settled(raw, e))
      {
        SettledAtFirst(raw, audit, e, id, k);
      }
      if forall i :: 0 <= i < |audit.tools| ==> audit.tools[i].id != id {
        WalkNone(e, audit.tools);
        AddedRow(raw, audit, e);
      }
    }
  }

  lemma SettledAtFirst(raw: Stored, audit: Audit, e: Event, id: string, k: nat)
    requires id == Bounded(e.id) && FirstOf(audit.tools, id, k)
    ensures k < |audit.tools| && BecomesAt(raw, audit, e, id, k, Concluded(raw, audit, e))
  {
    hide Trim, Bounded, Short, Walked, NewRow, Open, Unfinished;
    WalkByFirst(e, audit.tools, k);
    UnfinishedIs(audit.tools[k]);
    ShortIs(e.status);
  }

  lemma AddedRow(raw: Stored, audit: Audit, e: Event)
    requires Walked(e, audit.tools) == Going(audit.tools, false)
    ensures Grows(raw, audit, e, Concluded(raw, audit, e))
  {
    hide Trim, Bounded, Short, Walked;
    ShortIs(e.status);
    ShortIs(e.id);
  }
}
