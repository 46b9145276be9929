/**
 * What a compiled approval graph means when it runs: the engine that walks the
 * graph and inserts one approval row per approver, the grant call that answers a
 * row, and the outbox event that wakes the engine up again. The engine, the
 * grants and the deliveries interleave freely; a worker may die between any two
 * writes. The reference is `Verdict`, the all/any rule read off the decisions.
 */
module ApprovalWorkflow {
  import opened Common
  import opened ApprovalCompiler

  datatype RowStatus = Pending | Responded(decision: Decision) | Expired

  /** An approval row: whom it asks, the threshold stamped on it, and its status. */
  datatype Row = Row(approver: Approver, threshold: Threshold, status: RowStatus)

  datatype InstanceStatus = Active | Waiting | Completed

  datatype BookingStatus = PendingApproval | Confirmed | Cancelled

  /** The one live engine call of an instance: between nodes, or inside one. */
  datatype Worker = Idle | Moving(src: string, condition: Option<Decision>) | Executing(node: Node)

  datatype Config = Config(approvers: seq<Approver>, threshold: Threshold)

  datatype State = State(
    rows: seq<Row>,
    current: string,
    status: InstanceStatus,
    worker: Worker,
    booking: BookingStatus,
    events: seq<Decision>)

  datatype Step = Engine | Crash | Grant(row: nat, decision: Decision) | Deliver(event: nat)

  datatype Reply = NotFound | AlreadyResponded(prior: RowStatus) | AlreadyResolved | PartialApproved(remaining: nat) | Resolved

  // ----- the engine ------------------------------------------------------------

  function EdgesFrom(edges: seq<Edge>, src: string): seq<Edge> {
    if edges == [] then []
    else (if edges[0].src == src then [edges[0]] else []) + EdgesFrom(edges[1..], src)
  }

  function FindCondition(edges: seq<Edge>, condition: Decision): Option<Edge> {
    if edges == [] then None
    else if edges[0].condition == Some(condition) then Some(edges[0])
    else FindCondition(edges[1..], condition)
  }

  function FindNode(nodes: seq<Node>, id: string): Option<Node> {
    if nodes == [] then None else if nodes[0].id == id then Some(nodes[0]) else FindNode(nodes[1..], id)
  }

  /** Where `advance` goes: the first edge out, unless one carries the asked condition. */
  function NextNode(g: Graph, src: string, condition: Option<Decision>): Option<Node> {
    var edges := EdgesFrom(g.edges, src);
    if edges == [] then None
    else
      var matching := if condition.Some? then FindCondition(edges, condition.value) else None;
      FindNode(g.nodes, (if matching.Some? then matching.value else edges[0]).dst)
  }

  /** One write of the engine. An approval node inserts its rows one by one and then waits. */
  function EngineStep(g: Graph, s: State): State {
    match s.worker
    case Idle => s
    case Moving(src, condition) =>
      (match NextNode(g, src, condition)
       case None => s.(worker := Idle)
       case Some(node) => s.(current := node.id, worker := Executing(node)))
    case Executing(node) =>
      match node.config
      case TriggerNode => s.(worker := Moving(node.id, None))
      case ApprovalNode(approvers, threshold) =>
        if |s.rows| < |approvers| then s.(rows := s.rows + [Row(approvers[|s.rows|], threshold, Pending)])
        else s.(status := Waiting, worker := Idle)
      case EndNode(_) => s.(status := Completed, worker := Idle)
  }

  /** The event handler: `resume` claims a waiting instance and nothing else. */
  function DeliverStep(s: State, k: nat): State {
    if k < |s.events| && s.status == Waiting
    then s.(status := Active, worker := Moving(s.current, Some(s.events[k])))
    else s
  }

  // ----- the grant -------------------------------------------------------------

  predicate ApprovedSibling(rows: seq<Row>, i: nat) {
    exists j :: 0 <= j < |rows| && j != i && rows[j].status == Responded(Approved)
  }

  function ExpirePending(rows: seq<Row>): (r: seq<Row>)
    ensures |r| == |rows|
    ensures forall j :: 0 <= j < |r| ==> r[j] == if rows[j].status == Pending then rows[j].(status := Expired) else rows[j]
  {
    seq(|rows|, j requires 0 <= j < |rows| => if rows[j].status == Pending then rows[j].(status := Expired) else rows[j])
  }

  predicate Unresolved(row: Row) { row.status == Pending || row.status == Responded(Rejected) }

  function CountUnresolved(rows: seq<Row>): (n: nat)
    ensures n == 0 <==> forall j :: 0 <= j < |rows| ==> !Unresolved(rows[j])
  {
    if rows == [] then 0
    else
      assert forall j :: 1 <= j < |rows| ==> rows[j] == rows[1..][j - 1];
      (if Unresolved(rows[0]) then 1 else 0) + CountUnresolved(rows[1..])
  }

  function Resolve(s: State, rows: seq<Row>, d: Decision): State {
    s.(rows := rows,
       booking := if s.booking != PendingApproval then s.booking
                  else if d == Approved then Confirmed else Cancelled,
       events := s.events + [d])
  }

  function Answer(rows: seq<Row>, i: nat, d: Decision): seq<Row>
    requires i < |rows|
  {
    rows[i := rows[i].(status := Responded(d))]
  }

  /** `grant_booking_approval`, under the booking row lock. The threshold is the one stamped on the row. */
  function GrantStep(s: State, i: nat, d: Decision): (State, Reply) {
    if i >= |s.rows| then (s, NotFound)
    else if s.rows[i].status != Pending then (s, AlreadyResponded(s.rows[i].status))
    else
      var rows, threshold := Answer(s.rows, i, d), s.rows[i].threshold;
      if threshold == Any && d == Approved && ApprovedSibling(s.rows, i) then (s.(rows := rows), AlreadyResolved)
      else if d == Rejected || threshold == Any then (Resolve(s, ExpirePending(rows), d), Resolved)
      else if CountUnresolved(rows) > 0 then (s.(rows := rows), PartialApproved(CountUnresolved(rows)))
      else (Resolve(s, rows, d), Resolved)
  }

  /** The rows nobody approved yet: still pending, or rejected. */
  function OpenRows(rows: seq<Row>): set<nat> {
    set j: nat | j < |rows| && (rows[j].status == Pending || rows[j].status == Responded(Rejected))
  }

  lemma {:induction false} CountAppend(rows: seq<Row>, x: Row)
    ensures CountUnresolved(rows + [x]) == CountUnresolved(rows) + if Unresolved(x) then 1 else 0
  {
    if rows == [] {
      assert rows + [x] == [x] && [x][1..] == [];
    } else {
      assert (rows + [x])[1..] == rows[1..] + [x];
      CountAppend(rows[1..], x);
    }
  }

  lemma {:induction false} CountIsOpenRows(rows: seq<Row>)
    ensures CountUnresolved(rows) == |OpenRows(rows)|
  {
    if rows == [] {
      assert OpenRows(rows) == {};
    } else {
      var before, n := rows[..|rows| - 1], |rows| - 1;
      CountIsOpenRows(before);
      CountAppend(before, rows[n]);
      assert rows == before + [rows[n]];
      assert OpenRows(rows) == OpenRows(before) + (if Unresolved(rows[n]) then {n} else {});
    }
  }

  /**
   * What a grant answers, and what it then did: nothing for a missing or answered
   * row, an event with the decision exactly for `resolved`, and for a partial
   * approval the number of rows that still stand in the way.
   */
  lemma RepliesSayWhatHappened(s: State, i: nat, d: Decision)
    ensures var (t, reply) := GrantStep(s, i, d);
            && (reply == NotFound <==> i >= |s.rows|)
            && (reply.AlreadyResponded? <==> i < |s.rows| && s.rows[i].status != Pending)
            && (reply.AlreadyResponded? ==> reply.prior == s.rows[i].status)
            && (reply == NotFound || reply.AlreadyResponded? ==> t == s)
            && (i < |s.rows| && s.rows[i].status == Pending ==> t.rows[i] == s.rows[i].(status := Responded(d)))
            && t.events == (if reply == Resolved then s.events + [d] else s.events)
            && (reply == AlreadyResolved <==>
                  && i < |s.rows| && s.rows[i].status == Pending && s.rows[i].threshold == Any && d == Approved
                  && exists j :: 0 <= j < |s.rows| && j != i && s.rows[j].status == Responded(Approved))
            && (reply.PartialApproved? ==> d == Approved && s.rows[i].threshold == All && reply.remaining == |OpenRows(t.rows)| > 0)
  {
    if i < |s.rows| && s.rows[i].status == Pending { CountIsOpenRows(Answer(s.rows, i, d)); }
    hide CountUnresolved, OpenRows;
  }

  // ----- runs ------------------------------------------------------------------

  function GraphFor(c: Config): Graph { GraphOf(c.approvers, c.threshold) }

  /** `startForBooking` has just inserted the instance and calls `advance`. */
  function Initial(): State { State([], TRIGGER, Active, Moving(TRIGGER, None), PendingApproval, []) }

  function Apply(g: Graph, s: State, step: Step): State {
    match step
    case Engine => EngineStep(g, s)
    case Crash => s.(worker := Idle)
    case Grant(i, d) => GrantStep(s, i, d).0
    case Deliver(k) => DeliverStep(s, k)
  }

  function Exec(g: Graph, run: seq<Step>): State {
    if run == [] then Initial() else Apply(g, Exec(g, run[..|run| - 1]), run[|run| - 1])
  }

  /** The decisions that reached an existing row, in order. */
  function Calls(g: Graph, run: seq<Step>): seq<(nat, Decision)> {
    if run == [] then []
    else
      var before, last := run[..|run| - 1], run[|run| - 1];
      Calls(g, before) +
      (if last.Grant? && last.row < |Exec(g, before).rows| then [(last.row, last.decision)] else [])
  }

  // ----- the rule --------------------------------------------------------------

  /** What an approver said first; later answers to the same row do not matter. */
  function FirstCall(calls: seq<(nat, Decision)>, i: nat): Option<Decision> {
    if calls == [] then None
    else if calls[0].0 == i then Some(calls[0].1)
    else FirstCall(calls[1..], i)
  }

  predicate Vetoed(n: nat, calls: seq<(nat, Decision)>) {
    exists i :: 0 <= i < n && FirstCall(calls, i) == Some(Rejected)
  }

  predicate Unanimous(n: nat, calls: seq<(nat, Decision)>) {
    forall i :: 0 <= i < n ==> FirstCall(calls, i) == Some(Approved)
  }

  /** The all/any rule, evaluated directly on the decisions. */
  function Verdict(threshold: Threshold, n: nat, calls: seq<(nat, Decision)>): Option<Decision> {
    match threshold
    case Any => if calls == [] then None else Some(calls[0].1)
    case All =>
      if Vetoed(n, calls) then Some(Rejected)
      else if Unanimous(n, calls) then Some(Approved)
      else None
  }

  function EndOf(d: Decision): string { if d == Approved then SUCCESS else FAILURE }

  function BookingAfter(v: Option<Decision>): BookingStatus {
    match v case None => PendingApproval case Some(Approved) => Confirmed case Some(Rejected) => Cancelled
  }

  lemma {:induction false} FirstCallAppend(calls: seq<(nat, Decision)>, i: nat, d: Decision, j: nat)
    ensures FirstCall(calls + [(i, d)], j) ==
            if FirstCall(calls, j).Some? then FirstCall(calls, j) else if i == j then Some(d) else None
  {
    if calls != [] {
      assert (calls + [(i, d)])[1..] == calls[1..] + [(i, d)];
      FirstCallAppend(calls[1..], i, d, j);
    }
  }

  // ----- the compiled graph ----------------------------------------------------

  function ApprovalOf(c: Config): Node { Node(APPROVAL, ApprovalNode(c.approvers, c.threshold)) }

  function EndNodeOf(d: Decision): Node { Node(EndOf(d), EndNode(d)) }

  lemma NodeIdsDiffer()
    ensures TRIGGER != APPROVAL && TRIGGER != SUCCESS && TRIGGER != FAILURE
    ensures APPROVAL != SUCCESS && APPROVAL != FAILURE && SUCCESS != FAILURE
  {
    assert TRIGGER[0] == 't' && APPROVAL[0] == 'a' && SUCCESS[4] == 's' && FAILURE[4] == 'f';
    assert SUCCESS[0] == 'e' && FAILURE[0] == 'e';
  }

  lemma EdgesFromCons(e: Edge, rest: seq<Edge>, src: string)
    ensures EdgesFrom([e] + rest, src) == (if e.src == src then [e] else []) + EdgesFrom(rest, src)
  {
    assert ([e] + rest)[1..] == rest;
  }

  lemma FindNodeCons(n: Node, rest: seq<Node>, id: string)
    ensures FindNode([n] + rest, id) == if n.id == id then Some(n) else FindNode(rest, id)
  {
    assert ([n] + rest)[1..] == rest;
  }

  lemma Edges(c: Config, src: string)
    ensures EdgesFrom(GraphFor(c).edges, src) ==
            if src == TRIGGER then [Edge(TRIGGER, APPROVAL, None)]
            else if src == APPROVAL then [Edge(APPROVAL, SUCCESS, Some(Approved)), Edge(APPROVAL, FAILURE, Some(Rejected))]
            else []
  {
    NodeIdsDiffer();
    var e := GraphFor(c).edges;
    assert e == [e[0]] + ([e[1]] + ([e[2]] + []));
    EdgesFromCons(e[0], [e[1]] + ([e[2]] + []), src);
    EdgesFromCons(e[1], [e[2]] + [], src);
    EdgesFromCons(e[2], [], src);
  }

  lemma Nodes(c: Config, id: string)
    ensures id == APPROVAL ==> FindNode(GraphFor(c).nodes, id) == Some(ApprovalOf(c))
    ensures id == SUCCESS ==> FindNode(GraphFor(c).nodes, id) == Some(EndNodeOf(Approved))
    ensures id == FAILURE ==> FindNode(GraphFor(c).nodes, id) == Some(EndNodeOf(Rejected))
  {
    NodeIdsDiffer();
    var n := GraphFor(c).nodes;
    assert n == [n[0]] + ([n[1]] + ([n[2]] + ([n[3]] + [])));
    FindNodeCons(n[0], [n[1]] + ([n[2]] + ([n[3]] + [])), id);
    FindNodeCons(n[1], [n[2]] + ([n[3]] + []), id);
    FindNodeCons(n[2], [n[3]] + [], id);
    FindNodeCons(n[3], [], id);
  }

  /** The three moves a compiled graph has. */
  lemma Moves(c: Config)
    ensures NextNode(GraphFor(c), TRIGGER, None) == Some(ApprovalOf(c))
    ensures forall d :: NextNode(GraphFor(c), APPROVAL, Some(d)) == Some(EndNodeOf(d))
  {
    hide EdgesFrom, FindNode;
    Edges(c, TRIGGER);
    Edges(c, APPROVAL);
    Nodes(c, APPROVAL);
    Nodes(c, SUCCESS);
    Nodes(c, FAILURE);
    NodeIdsDiffer();
    var e := EdgesFrom(GraphFor(c).edges, APPROVAL);
    assert e[1..] == [e[1]];
    assert FindCondition(e, Approved) == Some(e[0]);
    assert FindCondition(e[1..], Rejected) == Some(e[1]);
    forall d ensures NextNode(GraphFor(c), APPROVAL, Some(d)) == Some(EndNodeOf(d)) {
      if d == Approved { } else { assert FindCondition(e, d) == Some(e[1]); }
    }
  }

  // ----- whole runs: the engine ------------------------------------------------

  /** The decision carried by the delivery that claimed the instance, if one did. */
  function Claim(g: Graph, run: seq<Step>): Option<Decision> {
    if run == [] then None
    else
      var before, last := run[..|run| - 1], run[|run| - 1];
      var s := Exec(g, before);
      if Claim(g, before).Some? then Claim(g, before)
      else if last.Deliver? && s.status == Waiting && last.event < |s.events| then Some(s.events[last.event])
      else None
  }

  /** The worker that claimed the instance died before it reached an end node. */
  function Killed(g: Graph, run: seq<Step>): bool {
    run != [] &&
    var before, last := run[..|run| - 1], run[|run| - 1];
    Killed(g, before) || (last.Crash? && Claim(g, before).Some? && Exec(g, before).status == Active)
  }

  ghost predicate WorkerFits(c: Config, s: State, claim: Option<Decision>, killed: bool) {
    match s.worker
    case Idle => s.status != Active || claim.None? || killed
    case Moving(src, condition) =>
      s.status == Active && s.current == src && !killed &&
      ((src == TRIGGER && condition.None? && claim.None? && s.rows == []) ||
       (src == APPROVAL && condition.Some? && claim == condition))
    case Executing(node) =>
      s.status == Active && s.current == node.id && !killed &&
      ((node == ApprovalOf(c) && claim.None?) || (claim.Some? && node == EndNodeOf(claim.value)))
  }

  /** Every inserted row asks the approver of its place and carries the threshold of the config. */
  ghost predicate Stamped(c: Config, rows: seq<Row>) {
    |rows| <= |c.approvers| &&
    forall i :: 0 <= i < |rows| ==> rows[i].approver == c.approvers[i] && rows[i].threshold == c.threshold
  }

  ghost predicate EngineInv(c: Config, s: State, claim: Option<Decision>, killed: bool) {
    && |s.rows| <= |c.approvers|
    && Stamped(c, s.rows)
    && WorkerFits(c, s, claim, killed)
    && (killed ==> claim.Some? && s.status == Active)
    && (s.status == Waiting ==> claim.None? && s.current == APPROVAL && |s.rows| == |c.approvers|)
    && (s.status == Completed ==> claim.Some? && s.current == EndOf(claim.value))
    && (s.status != Active ==> s.worker == Idle)
  }

  lemma GrantKeepsTheInstance(s: State, i: nat, d: Decision)
    ensures var t := GrantStep(s, i, d).0;
            t.current == s.current && t.status == s.status && t.worker == s.worker && |t.rows| == |s.rows|
            && (t.events == s.events || t.events == s.events + [d])
            && forall j :: 0 <= j < |s.rows| ==> t.rows[j].approver == s.rows[j].approver && t.rows[j].threshold == s.rows[j].threshold
  {
  }

  lemma EngineStepKeepsInv(c: Config, s: State, claim: Option<Decision>, killed: bool)
    requires EngineInv(c, s, claim, killed)
    ensures EngineInv(c, EngineStep(GraphFor(c), s), claim, killed)
  {
    hide NextNode, GraphOf;
    Moves(c);
    NodeIdsDiffer();
  }

  lemma OtherStepKeepsInv(c: Config, s: State, step: Step, claim: Option<Decision>, killed: bool)
    requires EngineInv(c, s, claim, killed) && !step.Engine?
    ensures EngineInv(c, Apply(GraphFor(c), s, step),
                      if claim.Some? then claim
                      else if step.Deliver? && s.status == Waiting && step.event < |s.events| then Some(s.events[step.event])
                      else None,
                      killed || (step.Crash? && claim.Some? && s.status == Active))
  {
    hide GrantStep, GraphOf;
    NodeIdsDiffer();
    if step.Grant? { GrantKeepsTheInstance(s, step.row, step.decision); }
  }

  lemma {:induction false} EngineInvHolds(c: Config, run: seq<Step>)
    ensures EngineInv(c, Exec(GraphFor(c), run), Claim(GraphFor(c), run), Killed(GraphFor(c), run))
  {
    if run != [] {
      hide EngineInv, Apply;
      var before, last := run[..|run| - 1], run[|run| - 1];
      EngineInvHolds(c, before);
      if last == Engine {
        ApplyEngine(c, Exec(GraphFor(c), before));
        EngineStepKeepsInv(c, Exec(GraphFor(c), before), Claim(GraphFor(c), before), Killed(GraphFor(c), before));
      } else {
        OtherStepKeepsInv(c, Exec(GraphFor(c), before), last, Claim(GraphFor(c), before), Killed(GraphFor(c), before));
      }
    }
  }

  lemma ApplyEngine(c: Config, s: State)
    ensures Apply(GraphFor(c), s, Engine) == EngineStep(GraphFor(c), s)
  {
  }

  lemma ExecAppend(c: Config, run: seq<Step>, step: Step)
    ensures Exec(GraphFor(c), run + [step]) == Apply(GraphFor(c), Exec(GraphFor(c), run), step)
    ensures Claim(GraphFor(c), run + [step]) ==
            (if Claim(GraphFor(c), run).Some? then Claim(GraphFor(c), run)
             else if step.Deliver? && Exec(GraphFor(c), run).status == Waiting && step.event < |Exec(GraphFor(c), run).events|
             then Some(Exec(GraphFor(c), run).events[step.event]) else None)
    ensures Killed(GraphFor(c), run + [step]) ==
            (Killed(GraphFor(c), run) || (step.Crash? && Claim(GraphFor(c), run).Some? && Exec(GraphFor(c), run).status == Active))
  {
    hide Apply;
    assert (run + [step])[..|run|] == run;
  }

  /**
   * In every run, two more engine writes finish the instance exactly when some
   * delivery claimed it and its worker was not killed, and it then stands at the
   * end node of the decision that delivery carried.
   */
  lemma CompletesExactly(c: Config, run: seq<Step>)
    ensures var t := Exec(GraphFor(c), (run + [Engine]) + [Engine]);
            && (t.status == Completed <==> Claim(GraphFor(c), run).Some? && !Killed(GraphFor(c), run))
            && (t.status == Completed ==> t.current == EndOf(Claim(GraphFor(c), run).value))
  {
    hide NextNode, GraphOf, Exec, Claim, Killed;
    EngineInvHolds(c, run);
    ExecAppend(c, run, Engine);
    ExecAppend(c, run + [Engine], Engine);
    EngineInvHolds(c, run + [Engine]);
    EngineInvHolds(c, run + [Engine] + [Engine]);
    Moves(c);
    NodeIdsDiffer();
  }

  /** A completed instance never moves again, so a run reaches one end node at most. */
  lemma {:induction false} CompletedIsFinal(c: Config, run: seq<Step>, more: seq<Step>)
    requires Exec(GraphFor(c), run).status == Completed
    ensures Exec(GraphFor(c), run + more).status == Completed && Exec(GraphFor(c), run + more).current == Exec(GraphFor(c), run).current
    decreases |more|
  {
    hide Exec, GrantStep;
    if more == [] {
      assert run + more == run;
    } else {
      var init, last := more[..|more| - 1], more[|more| - 1];
      assert run + more == (run + init) + [last];
      CompletedIsFinal(c, run, init);
      EngineInvHolds(c, run + init);
      ExecAppend(c, run + init, last);
      if last.Grant? { GrantKeepsTheInstance(Exec(GraphFor(c), run + init), last.row, last.decision); }
    }
  }

  /** Once the claiming worker is killed, no continuation completes the instance: nobody can claim it again. */
  lemma {:induction false} KilledNeverCompletes(c: Config, run: seq<Step>, more: seq<Step>)
    requires Killed(GraphFor(c), run)
    ensures Killed(GraphFor(c), run + more) && Exec(GraphFor(c), run + more).status == Active
    decreases |more|
  {
    hide Exec, Claim, Killed, Apply;
    if more == [] {
      assert run + more == run;
    } else {
      var init, last := more[..|more| - 1], more[|more| - 1];
      assert run + more == (run + init) + [last];
      KilledNeverCompletes(c, run, init);
      ExecAppend(c, run + init, last);
    }
    EngineInvHolds(c, run + more);
  }

  /** Nothing but the engine, `k` writes long. */
  function Engines(k: nat): seq<Step> { if k == 0 then [] else Engines(k - 1) + [Engine] }

  /** The rows of the first `m` approvers, unanswered. */
  function FreshRows(c: Config, m: nat): (rows: seq<Row>)
    requires m <= |c.approvers|
    ensures |rows| == m && forall i :: 0 <= i < m ==> rows[i] == Row(c.approvers[i], c.threshold, Pending)
  {
    if m == 0 then [] else FreshRows(c, m - 1) + [Row(c.approvers[m - 1], c.threshold, Pending)]
  }

  lemma {:induction false} InsertsRows(c: Config, m: nat)
    requires m <= |c.approvers|
    ensures Exec(GraphFor(c), Engines(1 + m)) ==
            State(FreshRows(c, m), APPROVAL, Active, Executing(ApprovalOf(c)), PendingApproval, [])
  {
    hide NextNode, GraphOf, Exec, FreshRows;
    Moves(c);
    if m == 0 {
      assert Engines(1) == [] + [Engine];
      NothingRun(c);
      ExecAppend(c, [], Engine);
      NoRows(c);
    } else {
      InsertsRows(c, m - 1);
      assert Engines(1 + m) == Engines(m) + [Engine];
      ExecAppend(c, Engines(m), Engine);
      OneMoreRow(c, m);
    }
  }

  lemma NothingRun(c: Config)
    ensures Exec(GraphFor(c), []) == Initial()
  {
  }

  lemma NoRows(c: Config)
    ensures FreshRows(c, 0) == []
  {
  }

  lemma OneMoreRow(c: Config, m: nat)
    requires 0 < m <= |c.approvers|
    ensures FreshRows(c, m) == FreshRows(c, m - 1) + [Row(c.approvers[m - 1], c.threshold, Pending)]
  {
  }

  /** Left alone, the engine enters the approval node, asks every approver once, in order, and then waits. */
  lemma SetupWaits(c: Config)
    ensures Exec(GraphFor(c), Engines(|c.approvers| + 2)) ==
            State(FreshRows(c, |c.approvers|), APPROVAL, Waiting, Idle, PendingApproval, [])
  {
    hide NextNode, GraphOf, Exec, FreshRows;
    InsertsRows(c, |c.approvers|);
    assert Engines(|c.approvers| + 2) == Engines(1 + |c.approvers|) + [Engine];
    ExecAppend(c, Engines(1 + |c.approvers|), Engine);
  }

  // ----- whole runs: the decision ----------------------------------------------

  predicate HasPending(rows: seq<Row>) { exists i :: 0 <= i < |rows| && rows[i].status == Pending }

  /** While nothing is resolved, the rows are exactly the first answers. */
  ghost predicate OpenInv(c: Config, s: State, calls: seq<(nat, Decision)>) {
    && s.booking == PendingApproval
    && |s.rows| <= |c.approvers|
    && (forall i :: 0 <= i < |s.rows| ==>
          s.rows[i].status == if FirstCall(calls, i).None? then Pending else Responded(FirstCall(calls, i).value))
    && (forall i :: 0 <= i < |s.rows| ==> s.rows[i].status != Responded(Rejected))
    && (forall i: nat :: i >= |s.rows| ==> FirstCall(calls, i).None?)
    && (c.threshold == Any ==> calls == [])
    && (s.rows == [] || HasPending(s.rows))
  }

  lemma OpenMeansNoVerdict(c: Config, s: State, calls: seq<(nat, Decision)>)
    requires c.approvers != [] && OpenInv(c, s, calls)
    ensures Verdict(c.threshold, |c.approvers|, calls) == None
  {
    if |s.rows| < |c.approvers| {
      assert FirstCall(calls, |s.rows|).None?;
    } else {
      var i :| 0 <= i < |s.rows| && s.rows[i].status == Pending;
      assert FirstCall(calls, i).None?;
    }
  }

  function Inserted(c: Config, rows: seq<Row>): seq<Row>
    requires |rows| < |c.approvers|
  {
    rows + [Row(c.approvers[|rows|], c.threshold, Pending)]
  }

  lemma InsertKeepsOpen(c: Config, s: State, calls: seq<(nat, Decision)>)
    requires OpenInv(c, s, calls) && |s.rows| < |c.approvers|
    ensures OpenInv(c, s.(rows := Inserted(c, s.rows)), calls)
  {
    hide Verdict;
    var t := Inserted(c, s.rows);
    assert t[|s.rows|].status == Pending;
    assert forall i :: 0 <= i < |s.rows| ==> t[i] == s.rows[i];
  }

  lemma FirstCallsAppend(calls: seq<(nat, Decision)>, i: nat, d: Decision)
    ensures forall j: nat :: FirstCall(calls + [(i, d)], j) ==
              if FirstCall(calls, j).Some? then FirstCall(calls, j) else if i == j then Some(d) else None
  {
    forall j: nat ensures FirstCall(calls + [(i, d)], j) ==
                          if FirstCall(calls, j).Some? then FirstCall(calls, j) else if i == j then Some(d) else None
    {
      FirstCallAppend(calls, i, d, j);
    }
  }

  lemma AnswerStaysOpen(c: Config, s: State, calls: seq<(nat, Decision)>, i: nat, d: Decision)
    requires OpenInv(c, s, calls) && i < |s.rows| && s.rows[i].status != Pending
    ensures OpenInv(c, s, calls + [(i, d)])
  {
    NoFirstCall();
    hide FirstCall;
    FirstCallsAppend(calls, i, d);
  }

  lemma ApprovalStaysOpen(c: Config, s: State, calls: seq<(nat, Decision)>, i: nat)
    requires OpenInv(c, s, calls) && i < |s.rows| && s.rows[i].status == Pending && c.threshold == All
    requires CountUnresolved(Answer(s.rows, i, Approved)) > 0
    ensures OpenInv(c, s.(rows := Answer(s.rows, i, Approved)), calls + [(i, Approved)])
  {
    hide FirstCall, CountUnresolved;
    FirstCallsAppend(calls, i, Approved);
    var rows := Answer(s.rows, i, Approved);
    var j :| 0 <= j < |rows| && Unresolved(rows[j]);
    assert rows[j].status == Pending;
  }

  lemma LastApprovalIsUnanimous(c: Config, s: State, calls: seq<(nat, Decision)>, i: nat)
    requires OpenInv(c, s, calls) && i < |s.rows| && s.rows[i].status == Pending && c.threshold == All
    requires CountUnresolved(Answer(s.rows, i, Approved)) == 0
    ensures !HasPending(Answer(s.rows, i, Approved))
    ensures Verdict(All, |c.approvers|, calls + [(i, Approved)]) == Some(Approved) <==> |s.rows| == |c.approvers|
  {
    hide FirstCall, CountUnresolved;
    var after, rows := calls + [(i, Approved)], Answer(s.rows, i, Approved);
    FirstCallsAppend(calls, i, Approved);
    assert forall j :: 0 <= j < |rows| ==> !Unresolved(rows[j]);
    forall j | 0 <= j < |rows| ensures FirstCall(after, j) == Some(Approved) {
      assert !Unresolved(rows[j]) && FirstCall(calls, i).None?;
      if j != i { assert s.rows[j] == rows[j] && rows[j].status.decision.Approved?; }
    }
    if |s.rows| < |c.approvers| { assert FirstCall(after, |s.rows|).None?; }
  }

  lemma RejectionIsAVeto(c: Config, s: State, calls: seq<(nat, Decision)>, i: nat)
    requires OpenInv(c, s, calls) && i < |s.rows| && s.rows[i].status == Pending
    ensures Verdict(c.threshold, |c.approvers|, calls + [(i, Rejected)]) == Some(Rejected)
  {
    hide FirstCall;
    FirstCallsAppend(calls, i, Rejected);
    assert FirstCall(calls + [(i, Rejected)], i) == Some(Rejected);
  }

  /** A grant on an open chain: what it answers, and what it emits. */
  lemma GrantOnOpen(c: Config, s: State, calls: seq<(nat, Decision)>, i: nat, d: Decision)
    requires OpenInv(c, s, calls) && Stamped(c, s.rows) && i < |s.rows| && s.events == []
    ensures GrantStep(s, i, d).1 != AlreadyResolved
    ensures var t := GrantStep(s, i, d).0; var after := calls + [(i, d)];
            && (t.events == [] ==> OpenInv(c, t, after))
            && (t.events != [] ==>
                  && t.events == [d] && t.booking == BookingAfter(Some(d)) && !HasPending(t.rows)
                  && (Verdict(c.threshold, |c.approvers|, after) == Some(d) <==>
                      c.threshold == Any || d == Rejected || |s.rows| == |c.approvers|))
  {
    NoFirstCall();
    hide FirstCall, CountUnresolved;
    if s.rows[i].status != Pending {
      AnswerStaysOpen(c, s, calls, i, d);
    } else if d == Rejected {
      RejectionIsAVeto(c, s, calls, i);
    } else if c.threshold == All {
      if CountUnresolved(Answer(s.rows, i, d)) > 0 {
        ApprovalStaysOpen(c, s, calls, i);
      } else {
        LastApprovalIsUnanimous(c, s, calls, i);
      }
    }
  }

  lemma StepKeepsOpen(c: Config, s: State, calls: seq<(nat, Decision)>, step: Step, claim: Option<Decision>, killed: bool)
    requires OpenInv(c, s, calls) && s.events == [] && EngineInv(c, s, claim, killed)
    requires !step.Grant? || step.row >= |s.rows|
    ensures Apply(GraphFor(c), s, step).events == [] && OpenInv(c, Apply(GraphFor(c), s, step), calls)
  {
    hide GrantStep, NextNode, GraphOf, FirstCall;
    match step
    case Engine =>
      if s.worker == Executing(ApprovalOf(c)) && |s.rows| < |c.approvers| { InsertKeepsOpen(c, s, calls); }
    case Crash =>
    case Grant(i, d) => GrantOnMissing(s, i, d);
    case Deliver(k) =>
  }

  lemma {:induction false} OpenInvHolds(c: Config, run: seq<Step>)
    ensures Exec(GraphFor(c), run).events == [] ==> OpenInv(c, Exec(GraphFor(c), run), Calls(GraphFor(c), run))
  {
    if run == [] {
      NoFirstCall();
    } else {
      hide OpenInv, EngineInv, Apply;
      var before, last := run[..|run| - 1], run[|run| - 1];
      var s := Exec(GraphFor(c), before);
      OpenInvHolds(c, before);
      EngineInvHolds(c, before);
      EventsGrow(c, s, last);
      if s.events == [] {
        if last.Grant? && last.row < |s.rows| {
          GrantOnOpen(c, s, Calls(GraphFor(c), before), last.row, last.decision);
          ApplyGrant(c, s, last.row, last.decision);
        } else {
          StepKeepsOpen(c, s, Calls(GraphFor(c), before), last, Claim(GraphFor(c), before), Killed(GraphFor(c), before));
          assert Calls(GraphFor(c), run) == Calls(GraphFor(c), before);
        }
      }
    }
  }

  lemma EventsGrow(c: Config, s: State, step: Step)
    ensures s.events <= Apply(GraphFor(c), s, step).events
    ensures !step.Grant? ==> Apply(GraphFor(c), s, step).events == s.events && Apply(GraphFor(c), s, step).booking == s.booking
  {
    hide GrantStep, NextNode, GraphOf;
    if step.Grant? { GrantKeepsTheInstance(s, step.row, step.decision); }
  }

  lemma ApplyGrant(c: Config, s: State, i: nat, d: Decision)
    ensures Apply(GraphFor(c), s, Grant(i, d)) == GrantStep(s, i, d).0
  {
  }

  lemma NoFirstCall()
    ensures forall i: nat :: FirstCall([], i).None?
  {
  }

  lemma GrantOnMissing(s: State, i: nat, d: Decision)
    ensures i >= |s.rows| ==> GrantStep(s, i, d) == (s, NotFound)
    ensures i < |s.rows| && s.rows[i].status != Pending ==> GrantStep(s, i, d) == (s, AlreadyResponded(s.rows[i].status))
  {
  }

  /**
   * In every run, the first event a grant emits carries that grant's decision,
   * and it is the verdict of the rule exactly when the threshold is `any`, the
   * decision is a rejection, or every approver's row was already inserted.
   */
  lemma FirstEventIsTheVerdict(c: Config, run: seq<Step>, i: nat, d: Decision)
    requires c.approvers != [] && Exec(GraphFor(c), run).events == []
    requires Exec(GraphFor(c), run + [Grant(i, d)]).events != []
    ensures Exec(GraphFor(c), run + [Grant(i, d)]).events == [d]
    ensures Verdict(c.threshold, |c.approvers|, Calls(GraphFor(c), run)) == None
    ensures Verdict(c.threshold, |c.approvers|, Calls(GraphFor(c), run + [Grant(i, d)])) == Some(d) <==>
            c.threshold == Any || d == Rejected || |Exec(GraphFor(c), run).rows| == |c.approvers|
  {
    hide GrantStep, Exec, Calls;
    EngineInvHolds(c, run);
    OpenInvHolds(c, run);
    OpenMeansNoVerdict(c, Exec(GraphFor(c), run), Calls(GraphFor(c), run));
    ExecAppend(c, run, Grant(i, d));
    CallsAppend(c, run, Grant(i, d));
    if i < |Exec(GraphFor(c), run).rows| {
      GrantOnOpen(c, Exec(GraphFor(c), run), Calls(GraphFor(c), run), i, d);
    } else {
      GrantOnMissing(Exec(GraphFor(c), run), i, d);
    }
  }

  lemma CallsAppend(c: Config, run: seq<Step>, step: Step)
    ensures Calls(GraphFor(c), run + [step]) ==
            Calls(GraphFor(c), run) + (if step.Grant? && step.row < |Exec(GraphFor(c), run).rows| then [(step.row, step.decision)] else [])
  {
    hide Exec;
    assert (run + [step])[..|run|] == run;
  }

  // ----- grants that wait for the instance -------------------------------------

  /** Every grant finds the instance waiting for approval, or the chain already resolved. */
  predicate Orderly(g: Graph, run: seq<Step>) {
    run == [] ||
    var before, last := run[..|run| - 1], run[|run| - 1];
    Orderly(g, before) &&
    (last.Grant? ==> Exec(g, before).status == Waiting || Exec(g, before).events != [])
  }

  ghost predicate ClosedInv(c: Config, s: State, calls: seq<(nat, Decision)>, claim: Option<Decision>) {
    && |s.events| == 1
    && |s.rows| == |c.approvers| && !HasPending(s.rows)
    && Verdict(c.threshold, |c.approvers|, calls) == Some(s.events[0])
    && s.booking == BookingAfter(Some(s.events[0]))
    && (claim.None? ==> s.status == Waiting)
    && (claim.Some? ==> claim.value == s.events[0])
  }

  /** Later answers never change a verdict. */
  lemma VerdictIsStable(threshold: Threshold, n: nat, calls: seq<(nat, Decision)>, i: nat, d: Decision)
    requires Verdict(threshold, n, calls).Some?
    ensures Verdict(threshold, n, calls + [(i, d)]) == Verdict(threshold, n, calls)
  {
    hide FirstCall;
    FirstCallsAppend(calls, i, d);
    if threshold == All && Vetoed(n, calls) {
      var j :| 0 <= j < n && FirstCall(calls, j) == Some(Rejected);
      assert FirstCall(calls + [(i, d)], j) == Some(Rejected);
    }
  }

  lemma OtherStepStaysClosed(c: Config, s: State, calls: seq<(nat, Decision)>, step: Step, claim: Option<Decision>, killed: bool)
    requires ClosedInv(c, s, calls, claim) && EngineInv(c, s, claim, killed) && !step.Grant?
    ensures ClosedInv(c, Apply(GraphFor(c), s, step), calls,
                      if claim.Some? then claim
                      else if step.Deliver? && s.status == Waiting && step.event < |s.events| then Some(s.events[step.event])
                      else None)
  {
    hide NextNode, GraphOf, GrantStep, Verdict, HasPending;
    NodeIdsDiffer();
  }

  lemma GrantStaysClosed(c: Config, s: State, calls: seq<(nat, Decision)>, i: nat, d: Decision, claim: Option<Decision>)
    requires ClosedInv(c, s, calls, claim)
    ensures GrantStep(s, i, d).0 == s && GrantStep(s, i, d).1 != AlreadyResolved
    ensures ClosedInv(c, s, calls + [(i, d)], claim)
  {
    hide GrantStep, Verdict;
    assert i < |s.rows| ==> s.rows[i].status != Pending;
    GrantOnMissing(s, i, d);
    VerdictIsStable(c.threshold, |c.approvers|, calls, i, d);
  }

  lemma GrantCloses(c: Config, s: State, calls: seq<(nat, Decision)>, i: nat, d: Decision, claim: Option<Decision>, killed: bool)
    requires OpenInv(c, s, calls) && s.events == [] && s.status == Waiting && EngineInv(c, s, claim, killed) && i < |s.rows|
    requires GrantStep(s, i, d).0.events != []
    ensures ClosedInv(c, GrantStep(s, i, d).0, calls + [(i, d)], claim)
  {
    hide GrantStep, Verdict, HasPending, OpenInv;
    GrantOnOpen(c, s, calls, i, d);
    GrantKeepsTheInstance(s, i, d);
  }

  lemma {:induction false} ClosedInvHolds(c: Config, run: seq<Step>)
    requires Orderly(GraphFor(c), run)
    ensures Exec(GraphFor(c), run).events != [] ==> ClosedInv(c, Exec(GraphFor(c), run), Calls(GraphFor(c), run), Claim(GraphFor(c), run))
  {
    if run != [] {
      hide OpenInv, EngineInv, Apply, ClosedInv, Verdict;
      var before, last := run[..|run| - 1], run[|run| - 1];
      var s, calls, claim, killed := Exec(GraphFor(c), before), Calls(GraphFor(c), before), Claim(GraphFor(c), before), Killed(GraphFor(c), before);
      ClosedInvHolds(c, before);
      OpenInvHolds(c, before);
      EngineInvHolds(c, before);
      EventsGrow(c, s, last);
      assert !(last.Grant? && last.row < |s.rows|) ==> Calls(GraphFor(c), run) == calls;
      if !last.Grant? {
        if s.events != [] { OtherStepStaysClosed(c, s, calls, last, claim, killed); }
      } else {
        ApplyGrant(c, s, last.row, last.decision);
        if last.row >= |s.rows| {
          GrantOnMissing(s, last.row, last.decision);
        } else if s.events == [] {
          GrantKeepsTheInstance(s, last.row, last.decision);
          if Exec(GraphFor(c), run).events != [] { GrantCloses(c, s, calls, last.row, last.decision, claim, killed); }
        } else {
          GrantStaysClosed(c, s, calls, last.row, last.decision, claim);
        }
      }
    }
  }

  /**
   * Compilation preserves meaning. In every orderly run, whatever crashes and
   * redeliveries happen, the emitted events, the booking and the end node the
   * instance may reach are those of the rule applied to the decisions.
   */
  lemma RunFollowsTheRule(c: Config, run: seq<Step>)
    requires c.approvers != [] && Orderly(GraphFor(c), run)
    ensures var s := Exec(GraphFor(c), run); var v := Verdict(c.threshold, |c.approvers|, Calls(GraphFor(c), run));
            && s.events == (if v.Some? then [v.value] else [])
            && s.booking == BookingAfter(v)
            && (Claim(GraphFor(c), run).Some? ==> Claim(GraphFor(c), run) == v)
            && (s.status == Completed ==> v.Some? && s.current == EndOf(v.value))
  {
    hide Exec, Calls, Claim, Killed, Verdict;
    EngineInvHolds(c, run);
    OpenInvHolds(c, run);
    ClosedInvHolds(c, run);
    ClaimNeedsEvent(c, run);
    if Exec(GraphFor(c), run).events == [] { OpenMeansNoVerdict(c, Exec(GraphFor(c), run), Calls(GraphFor(c), run)); }
  }

  lemma {:induction false} ClaimNeedsEvent(c: Config, run: seq<Step>)
    ensures Claim(GraphFor(c), run).Some? ==> Claim(GraphFor(c), run).value in Exec(GraphFor(c), run).events
  {
    hide Apply;
    if run != [] {
      ClaimNeedsEvent(c, run[..|run| - 1]);
      EventsGrow(c, Exec(GraphFor(c), run[..|run| - 1]), run[|run| - 1]);
    }
  }

  /**
   * Never stuck once resolved: after an orderly run with verdict `v`, one delivery
   * and two engine writes put the instance at the end node of `v` exactly when the
   * claiming worker was not killed.
   */
  lemma NeverStuckOnceResolved(c: Config, run: seq<Step>)
    requires c.approvers != [] && Orderly(GraphFor(c), run)
    requires Verdict(c.threshold, |c.approvers|, Calls(GraphFor(c), run)).Some?
    ensures var t := Exec(GraphFor(c), ((run + [Deliver(0)]) + [Engine]) + [Engine]);
            && (t.status == Completed <==> !Killed(GraphFor(c), run))
            && (t.status == Completed ==> t.current == EndOf(Verdict(c.threshold, |c.approvers|, Calls(GraphFor(c), run)).value))
  {
    hide Exec, Calls, Claim, Killed, Verdict, Apply;
    RunFollowsTheRule(c, run);
    ClosedInvHolds(c, run);
    ExecAppend(c, run, Deliver(0));
    CompletesExactly(c, run + [Deliver(0)]);
  }

  /** In orderly runs the grant's `already_resolved` branch is dead code. */
  lemma AlreadyResolvedIsDead(c: Config, run: seq<Step>, i: nat, d: Decision)
    requires Orderly(GraphFor(c), run + [Grant(i, d)])
    ensures GrantStep(Exec(GraphFor(c), run), i, d).1 != AlreadyResolved
  {
    hide Exec, Calls, Claim, Verdict, GrantStep;
    assert (run + [Grant(i, d)])[..|run|] == run;
    EngineInvHolds(c, run);
    var s := Exec(GraphFor(c), run);
    OpenInvHolds(c, run);
    ClosedInvHolds(c, run);
    GrantOnMissing(s, i, d);
    if s.events != [] {
      GrantStaysClosed(c, s, Calls(GraphFor(c), run), i, d, Claim(GraphFor(c), run));
    } else if i < |s.rows| {
      GrantOnOpen(c, s, Calls(GraphFor(c), run), i, d);
    }
  }
}
