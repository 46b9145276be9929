/**
 * Compiling a rule's `approval_config` to a workflow graph. The input is the
 * parsed JSON as it comes from the database, so every field may have any shape.
 */
module ApprovalCompiler {
  import opened Common

  datatype Json =
    | Undefined
    | Null
    | Bool(b: bool)
    | Num(n: int)
    | Str(s: string)
    | Arr(items: seq<Json>)
    | Obj(fields: map<string, Json>)

  datatype ApprovalConfig = ApprovalConfig(requiredApprovers: Json, threshold: Json)

  datatype ApproverType = Person | Team

  datatype Approver = Approver(ty: ApproverType, id: string)

  datatype Threshold = All | Any

  datatype Decision = Approved | Rejected

  datatype NodeConfig =
    | TriggerNode
    | ApprovalNode(approvers: seq<Approver>, threshold: Threshold)
    | EndNode(outcome: Decision)

  datatype Node = Node(id: string, config: NodeConfig)

  datatype Edge = Edge(src: string, dst: string, condition: Option<Decision>)

  datatype Graph = Graph(nodes: seq<Node>, edges: seq<Edge>)

  datatype CompileResult = CompileResult(graph: Graph, name: string)

  /** Why a config is refused. Every one of these is a 422 in the service. */
  datatype Problem =
    | ApproversMissing
    | ApproversNotAnArray
    | ApproversEmpty
    | EntryNotAnObject(index: nat)
    | EntryBadType(index: nat)
    | EntryBadId(index: nat)
    | BadThreshold

  datatype Outcome = Compiled(result: CompileResult) | Refused(problem: Problem)

  /** `value.name` in JavaScript, for values that allow it. */
  function Field(v: Json, name: string): Json {
    if v.Obj? && name in v.fields then v.fields[name] else Undefined
  }

  function EntryProblem(entry: Json, i: nat): Option<Problem> {
    if !entry.Obj? && !entry.Arr? then Some(EntryNotAnObject(i))
    else if Field(entry, "type") != Str("person") && Field(entry, "type") != Str("team") then Some(EntryBadType(i))
    else if !Field(entry, "id").Str? || Field(entry, "id").s == "" then Some(EntryBadId(i))
    else None
  }

  /** A well-formed approver entry, said without the order of the checks. */
  ghost predicate ValidEntry(entry: Json) {
    && entry.Obj?
    && "type" in entry.fields && (entry.fields["type"] == Str("person") || entry.fields["type"] == Str("team"))
    && "id" in entry.fields && entry.fields["id"].Str? && entry.fields["id"].s != ""
  }

  ghost predicate ValidConfig(c: ApprovalConfig) {
    && c.requiredApprovers.Arr? && c.requiredApprovers.items != []
    && (forall i :: 0 <= i < |c.requiredApprovers.items| ==> ValidEntry(c.requiredApprovers.items[i]))
    && (c.threshold.Undefined? || c.threshold.Null? || c.threshold == Str("all") || c.threshold == Str("any"))
  }

  /** What is wrong with an entry, each problem by what it says. */
  ghost predicate WrongWith(entry: Json, p: Problem) {
    var named := entry.Obj? && "type" in entry.fields && entry.fields["type"] in {Str("person"), Str("team")};
    match p
    case EntryNotAnObject(_) => !entry.Obj? && !entry.Arr?
    case EntryBadType(_) => (entry.Obj? || entry.Arr?) && !named
    case EntryBadId(_) => named && !("id" in entry.fields && entry.fields["id"].Str? && entry.fields["id"] != Str(""))
    case _ => false
  }

  lemma EntryProblemIsExact(entry: Json, i: nat)
    ensures EntryProblem(entry, i).None? <==> ValidEntry(entry)
    ensures EntryProblem(entry, i).Some? ==> WrongWith(entry, EntryProblem(entry, i).value) && EntryProblem(entry, i).value.index == i
  {
  }

  /** The approver is the person or the team the entry names. */
  ghost predicate Asks(entry: Json, a: Approver) {
    && entry.Obj? && "type" in entry.fields && "id" in entry.fields
    && (a.ty == Person <==> entry.fields["type"] == Str("person"))
    && (a.ty == Team <==> entry.fields["type"] == Str("team"))
    && entry.fields["id"] == Str(a.id)
  }

  ghost predicate AsksInOrder(items: seq<Json>, approvers: seq<Approver>) {
    |approvers| == |items| && forall i :: 0 <= i < |items| ==> Asks(items[i], approvers[i])
  }

  function ReadApprover(entry: Json): (a: Approver)
    requires ValidEntry(entry)
    ensures Asks(entry, a)
  {
    Approver(if entry.fields["type"] == Str("person") then Person else Team, entry.fields["id"].s)
  }

  function ReadApprovers(items: seq<Json>): (r: seq<Approver>)
    requires forall i :: 0 <= i < |items| ==> ValidEntry(items[i])
    ensures |r| == |items|
    ensures forall i :: 0 <= i < |r| ==> r[i] == ReadApprover(items[i])
  {
    if items == [] then [] else [ReadApprover(items[0])] + ReadApprovers(items[1..])
  }

  /** An absent threshold means `all`. */
  function ReadThreshold(t: Json): Threshold { if t == Str("any") then Any else All }

  const TRIGGER := "trigger"
  const APPROVAL := "approval_main"
  const SUCCESS := "end_success"
  const FAILURE := "end_failure"

  /** The canonical compiled graph. */
  function GraphOf(approvers: seq<Approver>, threshold: Threshold): Graph {
    Graph(
      [Node(TRIGGER, TriggerNode), Node(APPROVAL, ApprovalNode(approvers, threshold)),
       Node(SUCCESS, EndNode(Approved)), Node(FAILURE, EndNode(Rejected))],
      [Edge(TRIGGER, APPROVAL, None), Edge(APPROVAL, SUCCESS, Some(Approved)), Edge(APPROVAL, FAILURE, Some(Rejected))])
  }

  function CompiledGraph(c: ApprovalConfig): Graph
    requires ValidConfig(c)
  {
    GraphOf(ReadApprovers(c.requiredApprovers.items), ReadThreshold(c.threshold))
  }

  /**
   * `compile`. It succeeds exactly on valid configs; a refusal of an entry names
   * the first bad entry; a success keeps the approvers in their order and
   * defaults the threshold.
   */
  method Compile(config: ApprovalConfig, ruleName: string) returns (r: Outcome)
    ensures r.Compiled? <==> ValidConfig(config)
    ensures r.Compiled? ==>
              && r.result.name == ruleName + " approval workflow"
              && r.result.graph == CompiledGraph(config)
              && exists approvers ::
                   && AsksInOrder(config.requiredApprovers.items, approvers)
                   && r.result.graph == GraphOf(approvers, if config.threshold == Str("any") then Any else All)
    ensures r == Refused(ApproversMissing) <==> config.requiredApprovers == Undefined || config.requiredApprovers == Null
    ensures r == Refused(ApproversNotAnArray) <==>
            config.requiredApprovers != Undefined && config.requiredApprovers != Null && !config.requiredApprovers.Arr?
    ensures r == Refused(ApproversEmpty) <==> config.requiredApprovers == Arr([])
    ensures r.Refused? && (r.problem.EntryNotAnObject? || r.problem.EntryBadType? || r.problem.EntryBadId?) ==>
              && config.requiredApprovers.Arr? && r.problem.index < |config.requiredApprovers.items|
              && WrongWith(config.requiredApprovers.items[r.problem.index], r.problem)
              && forall j :: 0 <= j < r.problem.index ==> ValidEntry(config.requiredApprovers.items[j])
    ensures r == Refused(BadThreshold) ==>
              ValidConfig(config.(threshold := Undefined)) && !ValidConfig(config)
  {
    var approvers := config.requiredApprovers;
    if approvers.Undefined? || approvers.Null? { return Refused(ApproversMissing); }
    if !approvers.Arr? { return Refused(ApproversNotAnArray); }
    if |approvers.items| == 0 { return Refused(ApproversEmpty); }
    for i := 0 to |approvers.items|
      invariant forall j :: 0 <= j < i ==> ValidEntry(approvers.items[j])
    {
      var problem := EntryProblem(approvers.items[i], i);
      EntryProblemIsExact(approvers.items[i], i);
      if problem.Some? { return Refused(problem.value); }
    }
    var threshold := if config.threshold.Undefined? || config.threshold.Null? then Str("all") else config.threshold;
    if threshold != Str("all") && threshold != Str("any") { return Refused(BadThreshold); }
    var required: seq<Approver> := [];
    for i := 0 to |approvers.items|
      invariant |required| == i
      invariant forall j :: 0 <= j < i ==> required[j] == ReadApprover(approvers.items[j])
    {
      required := required + [ReadApprover(approvers.items[i])];
    }
    assert required == ReadApprovers(approvers.items);
    assert AsksInOrder(approvers.items, required);
    r := Compiled(CompileResult(GraphOf(required, if threshold == Str("any") then Any else All),
                                ruleName + " approval workflow"));
  }

  function FirstApproval(nodes: seq<Node>): Option<(seq<Approver>, Threshold)> {
    if nodes == [] then None
    else if nodes[0].config.ApprovalNode? then Some((nodes[0].config.approvers, nodes[0].config.threshold))
    else FirstApproval(nodes[1..])
  }

  /** Looking for the approval node finds the approvers, in order, and the threshold. */
  lemma GraphKeepsTheConfig(approvers: seq<Approver>, threshold: Threshold)
    ensures FirstApproval(GraphOf(approvers, threshold).nodes) == Some((approvers, threshold))
  {
    var nodes := GraphOf(approvers, threshold).nodes;
    assert nodes[1..][0] == nodes[1];
  }

  /** Two configs list the same approvers: the same `type` and `id` at every place. */
  ghost predicate SameApprovers(xs: seq<Json>, ys: seq<Json>) {
    |xs| == |ys| && forall i :: 0 <= i < |xs| ==> Field(xs[i], "type") == Field(ys[i], "type") && Field(xs[i], "id") == Field(ys[i], "id")
  }

  /**
   * Two valid configs compile to the same graph exactly when they list the same
   * approvers in the same order and ask for the same threshold, an absent one being `all`.
   */
  lemma SameGraphExactly(c: ApprovalConfig, d: ApprovalConfig)
    requires ValidConfig(c) && ValidConfig(d)
    ensures CompiledGraph(c) == CompiledGraph(d) <==>
            SameApprovers(c.requiredApprovers.items, d.requiredApprovers.items)
            && (c.threshold == Str("any") <==> d.threshold == Str("any"))
  {
    var xs, ys := c.requiredApprovers.items, d.requiredApprovers.items;
    GraphKeepsTheConfig(ReadApprovers(xs), ReadThreshold(c.threshold));
    GraphKeepsTheConfig(ReadApprovers(ys), ReadThreshold(d.threshold));
    SameApproversExactly(xs, ys);
    hide ValidEntry, FirstApproval, GraphOf;
  }

  lemma SameEntryExactly(x: Json, y: Json)
    requires ValidEntry(x) && ValidEntry(y)
    ensures ReadApprover(x) == ReadApprover(y) <==> Field(x, "type") == Field(y, "type") && Field(x, "id") == Field(y, "id")
  {
  }

  lemma SameApproversExactly(xs: seq<Json>, ys: seq<Json>)
    requires forall i :: 0 <= i < |xs| ==> ValidEntry(xs[i])
    requires forall i :: 0 <= i < |ys| ==> ValidEntry(ys[i])
    ensures ReadApprovers(xs) == ReadApprovers(ys) <==> SameApprovers(xs, ys)
  {
    hide ValidEntry, ReadApprover;
    forall i | 0 <= i < |xs| && i < |ys|
      ensures ReadApprover(xs[i]) == ReadApprover(ys[i]) <==> Field(xs[i], "type") == Field(ys[i], "type") && Field(xs[i], "id") == Field(ys[i], "id")
    {
      SameEntryExactly(xs[i], ys[i]);
    }
    if ReadApprovers(xs) == ReadApprovers(ys) {
      assert |xs| == |ys|;
      assert forall i :: 0 <= i < |xs| ==> ReadApprovers(xs)[i] == ReadApprovers(ys)[i];
    }
  }
}
