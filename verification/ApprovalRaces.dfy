/**
 * What may go wrong around a running approval graph: answers that come while the
 * rows are still being inserted, events that come before the instance waits, and
 * reads that take no lock. All statements are about the runs of `ApprovalWorkflow`.
 */
module ApprovalRaces {
  import opened Common
  import opened ApprovalCompiler
  import opened ApprovalWorkflow

  /** A row that was answered or expired keeps that status for the rest of every run. */
  lemma {:induction false} RowsAreFinal(c: Config, run: seq<Step>, more: seq<Step>, i: nat)
    requires i < |Exec(GraphFor(c), run).rows| && Exec(GraphFor(c), run).rows[i].status != Pending
    ensures i < |Exec(GraphFor(c), run + more).rows| && Exec(GraphFor(c), run + more).rows[i] == Exec(GraphFor(c), run).rows[i]
    decreases |more|
  {
    hide Exec, GraphOf, NextNode, CountUnresolved;
    if more == [] {
      assert run + more == run;
    } else {
      var init, last := more[..|more| - 1], more[|more| - 1];
      assert run + more == (run + init) + [last];
      RowsAreFinal(c, run, init, i);
      ExecAppend(c, run + init, last);
    }
  }

  /**
   * The grant reads the row once without a lock and answers at once if it is not
   * pending. That early answer is the one the locked body would give later.
   */
  lemma UnlockedAnswerIsTheLockedOne(c: Config, run: seq<Step>, more: seq<Step>, i: nat, d: Decision)
    requires i < |Exec(GraphFor(c), run).rows| && Exec(GraphFor(c), run).rows[i].status != Pending
    ensures GrantStep(Exec(GraphFor(c), run + more), i, d)
            == (Exec(GraphFor(c), run + more), AlreadyResponded(Exec(GraphFor(c), run).rows[i].status))
  {
    hide Exec;
    RowsAreFinal(c, run, more, i);
  }

  /** No row is pending and the engine will not insert another. */
  predicate Quiet(c: Config, s: State) {
    !HasPending(s.rows) && !(s.worker == Executing(ApprovalOf(c)) && |s.rows| < |c.approvers|)
  }

  lemma QuietStep(c: Config, s: State, step: Step, claim: Option<Decision>, killed: bool)
    requires Quiet(c, s) && s.rows != [] && EngineInv(c, s, claim, killed)
    ensures Apply(GraphFor(c), s, step).rows == s.rows && Apply(GraphFor(c), s, step).events == s.events && Quiet(c, Apply(GraphFor(c), s, step))
  {
    hide GrantStep, GraphOf, NextNode;
    Moves(c);
    NodeIdsDiffer();
    if step.Grant? {
      assert step.row < |s.rows| ==> s.rows[step.row].status != Pending;
      GrantOnMissing(s, step.row, step.decision);
    }
  }

  lemma {:induction false} QuietIsSilent(c: Config, run: seq<Step>, more: seq<Step>)
    requires Exec(GraphFor(c), run).rows != [] && Quiet(c, Exec(GraphFor(c), run))
    ensures Exec(GraphFor(c), run + more).events == Exec(GraphFor(c), run).events
    ensures Exec(GraphFor(c), run + more).rows != [] && Quiet(c, Exec(GraphFor(c), run + more))
    decreases |more|
  {
    hide Exec, Quiet, Apply;
    if more == [] {
      assert run + more == run;
    } else {
      var init, last := more[..|more| - 1], more[|more| - 1];
      assert run + more == (run + init) + [last];
      QuietIsSilent(c, run, init);
      EngineInvHolds(c, run + init);
      ExecAppend(c, run + init, last);
      QuietStep(c, Exec(GraphFor(c), run + init), last, Claim(GraphFor(c), run + init), Killed(GraphFor(c), run + init));
    }
  }

  lemma PendingCanEmit(c: Config, run: seq<Step>)
    requires HasPending(Exec(GraphFor(c), run).rows)
    ensures exists i :: Exec(GraphFor(c), run + [Grant(i, Rejected)]).events == Exec(GraphFor(c), run).events + [Rejected]
  {
    hide Exec;
    var i :| 0 <= i < |Exec(GraphFor(c), run).rows| && Exec(GraphFor(c), run).rows[i].status == Pending;
    ExecAppend(c, run, Grant(i, Rejected));
  }

  lemma {:induction false} EventNeedsRow(c: Config, run: seq<Step>)
    ensures Exec(GraphFor(c), run).events != [] ==> Exec(GraphFor(c), run).rows != []
  {
    hide NextNode, GraphOf, CountUnresolved;
    if run != [] { EventNeedsRow(c, run[..|run| - 1]); }
  }

  ghost predicate NeverEmitsAgain(c: Config, run: seq<Step>) {
    forall more :: Exec(GraphFor(c), run + more).events == Exec(GraphFor(c), run).events
  }

  /** In every run, a resolved chain emits no further event exactly when it is quiet. */
  lemma SilentExactlyWhenQuiet(c: Config, run: seq<Step>)
    requires Exec(GraphFor(c), run).events != []
    ensures NeverEmitsAgain(c, run) <==> Quiet(c, Exec(GraphFor(c), run))
  {
    hide Exec, Apply, HasPending;
    var s := Exec(GraphFor(c), run);
    EventNeedsRow(c, run);
    if Quiet(c, s) {
      forall more ensures Exec(GraphFor(c), run + more).events == s.events { QuietIsSilent(c, run, more); }
    } else if HasPending(s.rows) {
      PendingCanEmit(c, run);
    } else {
      var next := run + [Engine];
      ExecAppend(c, run, Engine);
      InsertionIsPending(c, s);
      PendingCanEmit(c, next);
      var i :| Exec(GraphFor(c), next + [Grant(i, Rejected)]).events == Exec(GraphFor(c), next).events + [Rejected];
      assert next + [Grant(i, Rejected)] == run + [Engine, Grant(i, Rejected)];
    }
  }

  lemma InsertionIsPending(c: Config, s: State)
    requires s.worker == Executing(ApprovalOf(c)) && |s.rows| < |c.approvers|
    ensures HasPending(Apply(GraphFor(c), s, Engine).rows) && Apply(GraphFor(c), s, Engine).events == s.events
  {
    assert Apply(GraphFor(c), s, Engine).rows[|s.rows|].status == Pending;
  }

  function FirstOf(c: Config): Row
    requires c.approvers != []
  {
    Row(c.approvers[0], c.threshold, Pending)
  }

  /** The first two engine writes: enter the approval node, insert the first row. */
  lemma FirstRow(c: Config)
    requires c.approvers != []
    ensures Exec(GraphFor(c), [Engine] + [Engine]) ==
            State([FirstOf(c)], APPROVAL, Active, Executing(ApprovalOf(c)), PendingApproval, [])
    ensures Claim(GraphFor(c), [Engine] + [Engine]) == None && Calls(GraphFor(c), [Engine] + [Engine]) == []
  {
    hide NextNode, GraphOf, Exec, Claim, Calls;
    Moves(c);
    Start(c);
    assert [] + [Engine] == [Engine];
    ExecAppend(c, [], Engine);
    ExecAppend(c, [Engine], Engine);
    CallsAppend(c, [], Engine);
    CallsAppend(c, [Engine], Engine);
  }

  lemma Start(c: Config)
    ensures Exec(GraphFor(c), []) == Initial() && Claim(GraphFor(c), []) == None && Calls(GraphFor(c), []) == []
  {
  }

  /**
   * An approver who answers while the rows are still being inserted decides an
   * `all` chain alone: the booking is confirmed and the event emitted although
   * the rule has no verdict yet.
   */
  lemma EarlyApprovalDecidesAlone(c: Config)
    requires |c.approvers| >= 2 && c.threshold == All
    ensures var run := ([Engine] + [Engine]) + [Grant(0, Approved)];
            && Exec(GraphFor(c), run).events == [Approved] && Exec(GraphFor(c), run).booking == Confirmed
            && Verdict(All, |c.approvers|, Calls(GraphFor(c), run)) == None
  {
    hide Exec, Calls, Verdict, Claim;
    FirstRow(c);
    ExecAppend(c, [Engine] + [Engine], Grant(0, Approved));
    assert Answer([FirstOf(c)], 0, Approved) == [FirstOf(c).(status := Responded(Approved))];
    SingleApproval(|c.approvers|);
    CallsAppend(c, [Engine] + [Engine], Grant(0, Approved));
    assert Calls(GraphFor(c), ([Engine] + [Engine]) + [Grant(0, Approved)]) == [(0, Approved)];
  }

  lemma SingleApproval(n: nat)
    requires n >= 2
    ensures Verdict(All, n, [(0, Approved)]) == None
  {
    assert FirstCall([(0, Approved)], 1).None?;
    assert forall i: nat :: FirstCall([(0, Approved)], i) != Some(Rejected);
  }

  /** For every config and decision, an event can be out while the instance does not wait yet. */
  lemma EarlyEventIsReachable(c: Config, d: Decision)
    requires c.approvers != []
    ensures var s := Exec(GraphFor(c), ([Engine] + [Engine]) + [Grant(0, d)]);
            s.events == [d] && s.status == Active && Claim(GraphFor(c), ([Engine] + [Engine]) + [Grant(0, d)]) == None
  {
    hide Exec, Calls, Verdict, Claim, GraphOf;
    FirstRow(c);
    ExecAppend(c, [Engine] + [Engine], Grant(0, d));
    assert Answer([FirstOf(c)], 0, d) == [FirstOf(c).(status := Responded(d))];
  }

  lemma {:induction false} ClaimNeedsDelivery(c: Config, run: seq<Step>, more: seq<Step>)
    requires Claim(GraphFor(c), run).None? && forall k :: 0 <= k < |more| ==> !more[k].Deliver?
    ensures Claim(GraphFor(c), run + more).None?
    decreases |more|
  {
    hide Exec, Claim;
    if more == [] {
      assert run + more == run;
    } else {
      var init, last := more[..|more| - 1], more[|more| - 1];
      assert run + more == (run + init) + [last];
      ClaimNeedsDelivery(c, run, init);
      ExecAppend(c, run + init, last);
    }
  }

  /**
   * In every run, a delivery that finds the instance not waiting changes nothing. If
   * nobody had claimed the instance before, the event is lost: without another
   * delivery no continuation completes the instance.
   */
  lemma EarlyDeliveryIsLost(c: Config, run: seq<Step>, k: nat, more: seq<Step>)
    requires Exec(GraphFor(c), run).status != Waiting
    ensures Exec(GraphFor(c), run + [Deliver(k)]) == Exec(GraphFor(c), run)
    ensures Claim(GraphFor(c), run).None? && (forall j :: 0 <= j < |more| ==> !more[j].Deliver?) ==>
              Exec(GraphFor(c), (run + [Deliver(k)]) + more).status != Completed
  {
    hide Exec, Claim, Killed;
    ExecAppend(c, run, Deliver(k));
    if Claim(GraphFor(c), run).None? && forall j :: 0 <= j < |more| ==> !more[j].Deliver? {
      ClaimNeedsDelivery(c, run + [Deliver(k)], more);
      EngineInvHolds(c, (run + [Deliver(k)]) + more);
    }
  }
}
