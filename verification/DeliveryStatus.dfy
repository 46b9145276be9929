/**
 * Mail delivery events folded into a daily list's `email_status` and
 * `email_error`. A webhook batch may touch several lists; single events may fail
 * to be stored or applied without stopping the batch.
 */
module DeliveryStatus {
  import opened Common

  /** `Open` are the statuses before the first provider answer. */
  datatype Status = Open(name: string) | Delivered | Bounced | Failed

  datatype Kind = IsDelivered | IsBounced(reason: string) | IsFailed(reason: string) | IsComplained | IsOther(name: string)

  /** An event and the daily list it correlates to, if any. */
  datatype Event = Event(list: Option<string>, kind: Kind)

  /** What happens to the database calls of one event. */
  datatype Fate = Fine | FailsFirst | FailsAfterAudit

  datatype Row = Row(status: Status, error: Option<string>)

  function StatusOf(k: Kind): Option<Status> {
    match k
    case IsDelivered => Some(Delivered)
    case IsBounced(_) => Some(Bounced)
    case IsFailed(_) => Some(Failed)
    case IsComplained => Some(Bounced)
    case IsOther(_) => None
  }

  function ReasonOf(k: Kind): Option<string> {
    match k case IsBounced(r) => Some(r) case IsFailed(r) => Some(r) case _ => None
  }

  predicate Final(s: Status) { s == Delivered || s == Bounced }

  /** `updateDailyListStatus` on the row it addresses. */
  function Updated(row: Row, k: Kind): Row {
    match StatusOf(k)
    case None => row
    case Some(next) =>
      Row(if Final(row.status) then row.status else next,
          if next == Bounced || next == Failed then ReasonOf(k) else row.error)
  }

  function UpdatedRows(rows: map<string, Row>, e: Event): map<string, Row> {
    if e.list.Some? && e.list.value in rows then rows[e.list.value := Updated(rows[e.list.value], e.kind)] else rows
  }

  function Folded(row: Row, kinds: seq<Kind>): Row {
    if kinds == [] then row else Updated(Folded(row, kinds[..|kinds| - 1]), kinds[|kinds| - 1])
  }

  function FoldedRows(rows: map<string, Row>, batch: seq<(Event, Fate)>): map<string, Row> {
    if batch == [] then rows
    else
      var before, last := FoldedRows(rows, batch[..|batch| - 1]), batch[|batch| - 1];
      if last.1 == Fine then UpdatedRows(before, last.0) else before
  }

  function CountFine(batch: seq<(Event, Fate)>): nat {
    if batch == [] then 0 else CountFine(batch[..|batch| - 1]) + if batch[|batch| - 1].1 == Fine then 1 else 0
  }

  function Audited(batch: seq<(Event, Fate)>): seq<Event> {
    if batch == [] then []
    else Audited(batch[..|batch| - 1]) + if batch[|batch| - 1].1 == FailsFirst then [] else [batch[|batch| - 1].0]
  }

  class WebhookStore {
    var rows: map<string, Row>
    var audit: seq<Event>

    /** One event: the audit row first, then the status. Answers whether it was processed. */
    method Ingest(e: Event, fate: Fate) returns (ok: bool)
      modifies this
      ensures ok <==> fate == Fine
      ensures rows == if ok then UpdatedRows(old(rows), e) else old(rows)
      ensures audit == old(audit) + if fate == FailsFirst then [] else [e]
    {
      if fate == FailsFirst { return false; }
      audit := audit + [e];
      if fate == FailsAfterAudit { return false; }
      if e.list.Some? && e.list.value in rows {
        var id := e.list.value;
        var next := StatusOf(e.kind);
        if next.Some? {
          var row := rows[id];
          var status := if Final(row.status) then row.status else next.value;
          var error := if next.value == Bounced || next.value == Failed then ReasonOf(e.kind) else row.error;
          rows := rows[id := Row(status, error)];
        } else {
          assert rows[id := Updated(rows[id], e.kind)] == rows;
        }
      }
      return true;
    }

    /** The batch loop: a failing event is counted out and the rest goes on. */
    method HandleBatch(batch: seq<(Event, Fate)>) returns (processed: nat)
      modifies this
      ensures processed == CountFine(batch)
      ensures rows == FoldedRows(old(rows), batch)
      ensures audit == old(audit) + Audited(batch)
    {
      processed := 0;
      for i := 0 to |batch|
        invariant processed == CountFine(batch[..i])
        invariant rows == FoldedRows(old(rows), batch[..i])
        invariant audit == old(audit) + Audited(batch[..i])
      {
        assert batch[..i + 1][..i] == batch[..i];
        var ok := Ingest(batch[i].0, batch[i].1);
        if ok { processed := processed + 1; }
      }
      assert batch[..|batch|] == batch;
    }
  }

  function FineAt(batch: seq<(Event, Fate)>): set<nat> { set i: nat | i < |batch| && batch[i].1 == Fine }

  /** A batch counts exactly its events that went through. */
  lemma {:induction false} ProcessedAreFine(batch: seq<(Event, Fate)>)
    ensures CountFine(batch) == |FineAt(batch)|
  {
    if batch != [] {
      var before, n := batch[..|batch| - 1], |batch| - 1;
      ProcessedAreFine(before);
      assert FineAt(batch) == FineAt(before) + (if batch[n].1 == Fine then {n} else {});
    }
  }

  /** It audits exactly the events whose first call went through, each as often as it came. */
  lemma {:induction false} AuditedAreStored(batch: seq<(Event, Fate)>, e: Event)
    ensures multiset(Audited(batch))[e] == multiset(batch)[(e, Fine)] + multiset(batch)[(e, FailsAfterAudit)]
  {
    if batch != [] {
      var before, last := batch[..|batch| - 1], batch[|batch| - 1];
      AuditedAreStored(before, e);
      assert batch == before + [last];
      assert multiset(batch) == multiset(before) + multiset{last};
      if last.1 == FailsFirst {
        assert Audited(batch) == Audited(before);
      } else {
        assert multiset(Audited(batch)) == multiset(Audited(before)) + multiset{last.0};
      }
    }
  }

  // ----- rows are independent --------------------------------------------------

  /** The kinds of the applied events of one list, in order. */
  function Own(batch: seq<(Event, Fate)>, id: string): seq<Kind> {
    if batch == [] then []
    else
      var last := batch[|batch| - 1];
      Own(batch[..|batch| - 1], id) + if last.1 == Fine && last.0.list == Some(id) then [last.0.kind] else []
  }

  /** However events of different lists interleave, each row is the fold of its own events. */
  lemma {:induction false} RowsAreIndependent(rows: map<string, Row>, batch: seq<(Event, Fate)>, id: string)
    requires id in rows
    ensures FoldedRows(rows, batch).Keys == rows.Keys
    ensures FoldedRows(rows, batch)[id] == Folded(rows[id], Own(batch, id))
  {
    if batch != [] {
      RowsAreIndependent(rows, batch[..|batch| - 1], id);
      var before, last := Own(batch[..|batch| - 1], id), batch[|batch| - 1];
      assert (before + [last.0.kind])[..|before|] == before;
      assert before + [] == before;
    }
  }

  // ----- the final status ------------------------------------------------------

  predicate Terminal(k: Kind) { k.IsDelivered? || k.IsBounced? || k.IsComplained? }

  /** The status by the rule: the first terminal event decides; else any failure; else nothing happened. */
  function FirstTerminal(kinds: seq<Kind>): Option<Status> {
    if kinds == [] then None
    else if kinds[0].IsDelivered? then Some(Delivered)
    else if kinds[0].IsBounced? || kinds[0].IsComplained? then Some(Bounced)
    else FirstTerminal(kinds[1..])
  }

  predicate AnyFailed(kinds: seq<Kind>) { exists i :: 0 <= i < |kinds| && kinds[i].IsFailed? }

  function StatusByRule(start: Status, kinds: seq<Kind>): Status {
    if FirstTerminal(kinds).Some? then FirstTerminal(kinds).value
    else if AnyFailed(kinds) then Failed
    else start
  }

  lemma {:induction false} FirstTerminalAppend(kinds: seq<Kind>, k: Kind)
    ensures FirstTerminal(kinds + [k]) ==
            if FirstTerminal(kinds).Some? then FirstTerminal(kinds) else if Terminal(k) then StatusOf(k) else None
  {
    if kinds != [] {
      assert (kinds + [k])[1..] == kinds[1..] + [k];
      FirstTerminalAppend(kinds[1..], k);
    }
  }

  lemma {:induction false} FirstTerminalIsFinal(kinds: seq<Kind>)
    ensures FirstTerminal(kinds).Some? ==> Final(FirstTerminal(kinds).value)
    ensures FirstTerminal(kinds).None? <==> forall i :: 0 <= i < |kinds| ==> !Terminal(kinds[i])
  {
    if kinds != [] {
      FirstTerminalIsFinal(kinds[1..]);
      assert forall i :: 1 <= i < |kinds| ==> kinds[i] == kinds[1..][i - 1];
    }
  }

  lemma AnyFailedAppend(kinds: seq<Kind>, k: Kind)
    ensures AnyFailed(kinds + [k]) <==> AnyFailed(kinds) || k.IsFailed?
  {
    var all := kinds + [k];
    assert all[|kinds|] == k;
    if AnyFailed(kinds) {
      var i :| 0 <= i < |kinds| && kinds[i].IsFailed?;
      assert all[i].IsFailed?;
    }
  }

  /** From any status that is not final, every event sequence ends in the status of the rule. */
  lemma {:induction false} StatusFollowsTheRule(row: Row, kinds: seq<Kind>)
    requires !Final(row.status)
    ensures Folded(row, kinds).status == StatusByRule(row.status, kinds)
  {
    if kinds != [] {
      hide FirstTerminal, AnyFailed;
      var before, k := kinds[..|kinds| - 1], kinds[|kinds| - 1];
      assert kinds == before + [k];
      StatusFollowsTheRule(row, before);
      FirstTerminalAppend(before, k);
      FirstTerminalIsFinal(before);
      AnyFailedAppend(before, k);
    } else {
      FirstTerminalIsFinal(kinds);
    }
  }

  lemma {:induction false} FoldedAppend(row: Row, kinds: seq<Kind>, more: seq<Kind>)
    ensures Folded(row, kinds + more) == Folded(Folded(row, kinds), more)
    decreases |more|
  {
    if more == [] {
      assert kinds + more == kinds;
    } else {
      assert (kinds + more)[..|kinds + more| - 1] == kinds + more[..|more| - 1];
      FoldedAppend(row, kinds, more[..|more| - 1]);
    }
  }

  /** Once final, no later event changes the status: replays are harmless. */
  lemma {:induction false} FinalIsFinal(row: Row, more: seq<Kind>)
    requires Final(row.status)
    ensures Folded(row, more).status == row.status
  {
    if more != [] { FinalIsFinal(row, more[..|more| - 1]); }
  }

  /** So nothing that follows a final status, in whatever order it is replayed, changes it. */
  lemma ReplaysAreHarmless(row: Row, kinds: seq<Kind>, more: seq<Kind>)
    requires Final(Folded(row, kinds).status)
    ensures Folded(row, kinds + more).status == Folded(row, kinds).status
  {
    hide Folded;
    FoldedAppend(row, kinds, more);
    FinalIsFinal(Folded(row, kinds), more);
  }

  // ----- reordering ------------------------------------------------------------

  predicate Has(kinds: seq<Kind>, status: Status) {
    exists i :: 0 <= i < |kinds| && Terminal(kinds[i]) && StatusOf(kinds[i]) == Some(status)
  }

  ghost predicate OrderFree(row: Row, kinds: seq<Kind>) {
    forall p: seq<Kind> :: multiset(p) == multiset(kinds) ==> Folded(row, p).status == Folded(row, kinds).status
  }

  lemma {:induction false} FirstTerminalIsPresent(kinds: seq<Kind>)
    ensures FirstTerminal(kinds).Some? ==> Has(kinds, FirstTerminal(kinds).value)
  {
    if kinds != [] {
      FirstTerminalIsPresent(kinds[1..]);
      if !Terminal(kinds[0]) && FirstTerminal(kinds[1..]).Some? {
        var i :| 0 <= i < |kinds[1..]| && Terminal(kinds[1..][i]) && StatusOf(kinds[1..][i]) == FirstTerminal(kinds[1..]);
        assert kinds[i + 1] == kinds[1..][i];
      }
    }
  }

  lemma HasPermutes(p: seq<Kind>, q: seq<Kind>)
    requires multiset(p) == multiset(q)
    ensures forall s :: Has(p, s) ==> Has(q, s)
    ensures AnyFailed(p) ==> AnyFailed(q)
  {
    forall i | 0 <= i < |p| ensures exists j :: 0 <= j < |q| && q[j] == p[i] {
      assert p[i] in multiset(q);
    }
  }

  lemma NoTerminalExactly(kinds: seq<Kind>)
    ensures FirstTerminal(kinds).None? <==> !Has(kinds, Delivered) && !Has(kinds, Bounced)
  {
    FirstTerminalIsFinal(kinds);
    FirstTerminalIsPresent(kinds);
    forall i | 0 <= i < |kinds| && Terminal(kinds[i]) ensures Has(kinds, Delivered) || Has(kinds, Bounced) {
      assert StatusOf(kinds[i]) == Some(Delivered) || StatusOf(kinds[i]) == Some(Bounced);
    }
  }

  lemma OneOutcomeDecides(kinds: seq<Kind>)
    requires !(Has(kinds, Delivered) && Has(kinds, Bounced))
    ensures FirstTerminal(kinds) ==
            if Has(kinds, Delivered) then Some(Delivered) else if Has(kinds, Bounced) then Some(Bounced) else None
  {
    hide Has;
    NoTerminalExactly(kinds);
    FirstTerminalIsPresent(kinds);
    FirstTerminalIsFinal(kinds);
  }

  lemma ReorderingKeepsStatus(row: Row, p: seq<Kind>, q: seq<Kind>)
    requires !Final(row.status) && multiset(p) == multiset(q) && !(Has(p, Delivered) && Has(p, Bounced))
    ensures Folded(row, p).status == Folded(row, q).status
  {
    hide Folded, Has, FirstTerminal, AnyFailed;
    HasPermutes(p, q);
    HasPermutes(q, p);
    OneOutcomeDecides(p);
    OneOutcomeDecides(q);
    StatusFollowsTheRule(row, p);
    StatusFollowsTheRule(row, q);
  }

  function ToFront(kinds: seq<Kind>, i: nat): seq<Kind>
    requires i < |kinds|
  {
    [kinds[i]] + kinds[..i] + kinds[i + 1..]
  }

  lemma FrontDecides(row: Row, kinds: seq<Kind>, s: Status) returns (p: seq<Kind>)
    requires !Final(row.status) && Has(kinds, s)
    ensures multiset(p) == multiset(kinds) && Folded(row, p).status == s
  {
    var i :| 0 <= i < |kinds| && Terminal(kinds[i]) && StatusOf(kinds[i]) == Some(s);
    p := ToFront(kinds, i);
    assert kinds == kinds[..i] + [kinds[i]] + kinds[i + 1..];
    StatusFollowsTheRule(row, p);
  }

  /**
   * The status of a row that was not final is the same for every order of its
   * events exactly when they do not hold both a delivery and a bounce or complaint.
   */
  lemma OrderFreeExactly(row: Row, kinds: seq<Kind>)
    requires !Final(row.status)
    ensures OrderFree(row, kinds) <==> !(Has(kinds, Delivered) && Has(kinds, Bounced))
  {
    hide Has, Folded;
    if Has(kinds, Delivered) && Has(kinds, Bounced) {
      var p := FrontDecides(row, kinds, Delivered);
      var q := FrontDecides(row, kinds, Bounced);
    } else {
      forall p: seq<Kind> | multiset(p) == multiset(kinds) ensures Folded(row, p).status == Folded(row, kinds).status {
        ReorderingKeepsStatus(row, kinds, p);
      }
    }
  }

  // ----- the error column ------------------------------------------------------

  predicate Writes(k: Kind) { k.IsBounced? || k.IsFailed? || k.IsComplained? }

  /** The last event that writes the error column, searched from the back. */
  function LastWrite(kinds: seq<Kind>): (r: Option<nat>)
    ensures r.None? ==> forall j :: 0 <= j < |kinds| ==> !Writes(kinds[j])
    ensures r.Some? ==> r.value < |kinds| && Writes(kinds[r.value]) && forall j :: r.value < j < |kinds| ==> !Writes(kinds[j])
  {
    if kinds == [] then None
    else if Writes(kinds[|kinds| - 1]) then Some(|kinds| - 1)
    else LastWrite(kinds[..|kinds| - 1])
  }

  /**
   * Unlike the status, the error is that of the last failure event: a complaint
   * clears it, and without any failure event it keeps its old value.
   */
  lemma {:induction false} ErrorIsTheLast(row: Row, kinds: seq<Kind>)
    ensures Folded(row, kinds).error ==
            (match LastWrite(kinds)
             case None => row.error
             case Some(i) => match kinds[i] case IsBounced(reason) => Some(reason) case IsFailed(reason) => Some(reason) case _ => None)
  {
    if kinds != [] { ErrorIsTheLast(row, kinds[..|kinds| - 1]); }
  }

  /** So a late bounce leaves a delivered row with the bounce's reason as its error. */
  lemma LateBounceOnDelivered(row: Row, kinds: seq<Kind>, reason: string)
    requires Folded(row, kinds).status == Delivered
    ensures Folded(row, kinds + [IsBounced(reason)]) == Row(Delivered, Some(reason))
  {
    assert (kinds + [IsBounced(reason)])[..|kinds|] == kinds;
  }
}
