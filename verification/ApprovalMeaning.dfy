/** Compiler and run joined: what a valid JSON config means once its graph runs. */
module ApprovalMeaning {
  import opened Common
  import opened ApprovalCompiler
  import opened ApprovalWorkflow

  function ConfigOf(cfg: ApprovalConfig): Config
    requires ValidConfig(cfg)
  {
    Config(ReadApprovers(cfg.requiredApprovers.items), ReadThreshold(cfg.threshold))
  }

  /** The rule read off the JSON: `any` only when it says so, one vote per listed approver. */
  function ConfigVerdict(cfg: ApprovalConfig, calls: seq<(nat, Decision)>): Option<Decision>
    requires ValidConfig(cfg)
  {
    Verdict(if cfg.threshold == Str("any") then Any else All, |cfg.requiredApprovers.items|, calls)
  }

  /**
   * Compilation preserves meaning, from end to end. For every valid config, run the
   * graph the compiler makes of it, orderly and with any crashes and redeliveries:
   * the rows ask the listed approvers in their order; events, booking and end node
   * are those of the rule read off the config; and once the rule has a verdict, one
   * delivery and two engine writes reach its end node exactly when the claiming
   * worker was not killed.
   */
  lemma CompilationPreservesMeaning(cfg: ApprovalConfig, run: seq<Step>)
    requires ValidConfig(cfg) && Orderly(CompiledGraph(cfg), run)
    ensures var g, items := CompiledGraph(cfg), cfg.requiredApprovers.items;
            var s, v := Exec(g, run), ConfigVerdict(cfg, Calls(g, run));
            && |s.rows| <= |items|
            && (forall i :: 0 <= i < |s.rows| ==> Asks(items[i], s.rows[i].approver))
            && s.events == (if v.Some? then [v.value] else [])
            && s.booking == BookingAfter(v)
            && (s.status == Completed ==> v.Some? && s.current == EndOf(v.value))
            && (v.Some? ==>
                  var t := Exec(g, ((run + [Deliver(0)]) + [Engine]) + [Engine]);
                  && (t.status == Completed <==> !Killed(g, run))
                  && (t.status == Completed ==> t.current == EndOf(v.value)))
  {
    hide Exec, Calls, Claim, Killed, Verdict, Orderly, GraphOf, ValidEntry;
    var c := ConfigOf(cfg);
    assert GraphFor(c) == CompiledGraph(cfg);
    RunFollowsTheRule(c, run);
    EngineInvHolds(c, run);
    if Verdict(c.threshold, |c.approvers|, Calls(GraphFor(c), run)).Some? { NeverStuckOnceResolved(c, run); }
  }
}
