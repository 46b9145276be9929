/**
 * The idempotent command protocol: stable-keyed callers that retry while their
 * payload drifts, the `command_operations` write gate, the read-side success
 * probe, and the unique claim that gates the caller's side effects.
 *
 * Every action below is one atomic step of one attempt, so a run is any
 * interleaving of any number of attempts over any number of keys.
 */
module CommandOperations {
  import opened Common

  /** Primary key of `command_operations`: (tenant_id, idempotency_key). */
  datatype OpKey = OpKey(tenant: string, key: string)

  datatype Outcome = InProgress | Success

  /** A visible row. `hash` is the md5 of the payload text. */
  datatype Row = Row(hash: string, outcome: Outcome, cached: Option<string>)

  /** What the probe's read gives back. */
  datatype Read = ReadError | ReadRow(row: Option<Row>)

  datatype ProbeResult = Threw | Miss | Hit(cached: Option<string>)

  /** The read-side probe: only a `success` row short-circuits. */
  function ProbeCommandOperationSuccess(read: Read): (r: ProbeResult)
    ensures r.Hit? <==> read.ReadRow? && read.row.Some? && read.row.value.outcome.Success?
    ensures r.Hit? ==> r.cached == read.row.value.cached
    ensures r.Threw? <==> read.ReadError?
  {
    match read
    case ReadError => Threw
    case ReadRow(None) => Miss
    case ReadRow(Some(row)) => if row.outcome.Success? then Hit(row.cached) else Miss
  }

  datatype GateResult = Proceed | Replay(cached: Option<string>) | PayloadMismatch | UnexpectedState

  /** The write-side gate, evaluated under the advisory lock of the key. */
  function WriteGate(existing: Option<Row>, hash: string): (r: GateResult)
    ensures r.Proceed? <==> existing.None?
    ensures r.PayloadMismatch? <==> existing.Some? && existing.value.hash != hash
    ensures r.Replay? <==> existing.Some? && existing.value.hash == hash && existing.value.outcome.Success?
    ensures r.Replay? ==> r.cached == existing.value.cached
  {
    match existing
    case None => Proceed
    case Some(row) =>
      if row.outcome.Success? && row.hash == hash then Replay(row.cached)
      else if row.hash != hash then PayloadMismatch
      else UnexpectedState
  }

  datatype Reason = ProbeFailed | Mismatch | Unexpected | RolledBack | Crashed

  /** How far one attempt has come. */
  datatype Phase =
    | Fresh                     // nothing done yet
    | PastProbe                 // probe missed; the payload is about to be recomputed
    | Calling(hash: string)     // RPC issued with this payload hash, waiting for the lock
    | Gated(hash: string)       // holds the advisory lock, row not read yet
    | Writing(hash: string)     // in_progress marker inserted in its own transaction
    | Settled(result: string)   // knows the canonical write is durable
    | NoDelta                   // recompute found nothing to write
    | Won                       // inserted the unique side-effect claim
    | Lost                      // somebody else had claimed
    | Fired                     // ran the side effects
    | Failed(reason: Reason)

  datatype Attempt = Attempt(op: OpKey, phase: Phase)

  /** One committed canonical write. */
  datatype Commit = Commit(op: OpKey, attempt: nat, hash: string, result: string)

  datatype State = State(
    table: map<OpKey, Row>,        // rows visible to other transactions
    locks: map<OpKey, nat>,        // advisory lock holders
    claims: map<OpKey, nat>,       // unique side-effect claims
    attempts: seq<Attempt>,
    commits: seq<Commit>,          // every canonical write, in commit order
    skipped: set<OpKey>,           // keys for which some attempt had nothing to write
    fired: seq<nat>)               // attempts that ran the side effects, in order

  /** One move of an existing attempt. */
  datatype Move =
    | Probe
    | ProbeError
    | Recompute(hash: string)
    | SkipWrite
    | Lock
    | Gate
    | CommitTx(result: string, delivered: bool)
    | Rollback
    | Claim
    | Fire
    | Crash

  datatype Action = Start(op: OpKey) | Act(a: nat, move: Move)

  const INIT := State(map[], map[], map[], [], [], {}, [])

  predicate HoldsLock(p: Phase) {
    p.Gated? || p.Writing?
  }

  /** Phases in which an attempt missed its probe but has not met the gate. */
  predicate Racing(p: Phase) {
    p.PastProbe? || p.Calling? || p.Gated?
  }

  datatype LockMove = Keep | Take | Release

  /** What a move does: to the attempt itself, and to the shared rows of its key. */
  datatype Effect = Effect(
    phase: Phase,
    lock: LockMove := Keep,
    commit: Option<Row> := None,
    claim: bool := false,
    skip: bool := false,
    fire: bool := false)

  /** What an attempt can see of its key when it moves. */
  datatype View = View(row: Option<Row>, locked: bool, claimed: bool)

  predicate CanMove(p: Phase, v: View, m: Move) {
    match m
    case Probe => p.Fresh?
    case ProbeError => p.Fresh?
    case Recompute(_) => p.PastProbe?
    case SkipWrite => p.PastProbe?
    case Lock => p.Calling? && !v.locked
    case Gate => p.Gated?
    case CommitTx(_, _) => p.Writing?
    case Rollback => p.Writing?
    case Claim => p.Settled? || p.NoDelta?
    case Fire => p.Won?
    case Crash => !p.Failed? && !p.Fired?
  }

  function CachedText(cached: Option<string>): string {
    if cached.Some? then cached.value else "null"
  }

  /** A guarded caller probes first; an unguarded one (before the probe existed) never looks. */
  function ProbeEffect(guarded: bool, v: View): Effect {
    if !guarded then Effect(PastProbe)
    else
      match ProbeCommandOperationSuccess(ReadRow(v.row))
      case Hit(cached) => Effect(Settled(CachedText(cached)))
      case _ => Effect(PastProbe)
  }

  function GateEffect(v: View, hash: string): Effect {
    match WriteGate(v.row, hash)
    case Proceed => Effect(Writing(hash))
    case Replay(cached) => Effect(Settled(CachedText(cached)), lock := Release)
    case PayloadMismatch => Effect(Failed(Mismatch), lock := Release)
    case UnexpectedState => Effect(Failed(Unexpected), lock := Release)
  }

  function AbortEffect(p: Phase, why: Reason): Effect {
    Effect(Failed(why), lock := if HoldsLock(p) then Release else Keep)
  }

  function EffectOf(guarded: bool, p: Phase, v: View, m: Move): Effect
    requires CanMove(p, v, m)
  {
    match m
    case Probe => ProbeEffect(guarded, v)
    case ProbeError => Effect(Failed(ProbeFailed))
    case Recompute(hash) => Effect(Calling(hash))
    case SkipWrite => Effect(NoDelta, skip := true)
    case Lock => Effect(Gated(p.hash), lock := Take)
    case Gate => GateEffect(v, p.hash)
    case CommitTx(result, delivered) =>
      // The success row becomes visible; the answer may still be lost on the way back.
      Effect(if delivered then Settled(result) else Failed(Crashed),
             lock := Release, commit := Some(Row(p.hash, Success, Some(result))))
    case Rollback => AbortEffect(p, RolledBack)
    case Claim => if v.claimed then Effect(Lost) else Effect(Won, claim := true)
    case Fire => Effect(Fired, fire := true)
    case Crash => AbortEffect(p, Crashed)
  }

  function ViewOf(s: State, op: OpKey): View {
    View(if op in s.table then Some(s.table[op]) else None, op in s.locks, op in s.claims)
  }

  function Apply(s: State, a: nat, e: Effect): State
    requires a < |s.attempts|
  {
    var op := s.attempts[a].op;
    State(
      if e.commit.Some? then s.table[op := e.commit.value] else s.table,
      match e.lock { case Keep => s.locks case Take => s.locks[op := a] case Release => s.locks - {op} },
      if e.claim then s.claims[op := a] else s.claims,
      s.attempts[a := Attempt(op, e.phase)],
      if e.commit.Some? then s.commits + [Commit(op, a, e.commit.value.hash, CachedText(e.commit.value.cached))]
      else s.commits,
      if e.skip then s.skipped + {op} else s.skipped,
      if e.fire then s.fired + [a] else s.fired)
  }

  predicate Enabled(s: State, act: Action) {
    match act
    case Start(_) => true
    case Act(a, m) => a < |s.attempts| && CanMove(s.attempts[a].phase, ViewOf(s, s.attempts[a].op), m)
  }

  function Step(guarded: bool, s: State, act: Action): State
    requires Enabled(s, act)
  {
    match act
    case Start(op) => s.(attempts := s.attempts + [Attempt(op, Fresh)])
    case Act(a, m) =>
      Apply(s, a, EffectOf(guarded, s.attempts[a].phase, ViewOf(s, s.attempts[a].op), m))
  }

  /** Runs `acts` from `s`; `None` when some action is not enabled. */
  function Exec(guarded: bool, s: State, acts: seq<Action>): Option<State>
    decreases |acts|
  {
    if acts == [] then Some(s)
    else if !Enabled(s, acts[0]) then None
    else Exec(guarded, Step(guarded, s, acts[0]), acts[1..])
  }

  // ---------------------------------------------------------------------
  // The invariant of every reachable state
  // ---------------------------------------------------------------------

  ghost predicate CommitsDistinct(s: State) {
    forall i, j :: 0 <= i < j < |s.commits| ==> s.commits[i].op != s.commits[j].op
  }

  ghost predicate CommitsShown(s: State) {
    forall i :: 0 <= i < |s.commits| ==>
      && s.commits[i].op in s.table
      && s.table[s.commits[i].op] == Row(s.commits[i].hash, Success, Some(s.commits[i].result))
  }

  ghost predicate RowsCommitted(s: State) {
    forall k :: k in s.table ==> exists i :: 0 <= i < |s.commits| && s.commits[i].op == k
  }

  ghost predicate TableMatchesCommits(s: State) {
    CommitsDistinct(s) && CommitsShown(s) && RowsCommitted(s)
  }

  ghost predicate LocksMatchPhases(s: State) {
    && (forall k :: k in s.locks ==>
          s.locks[k] < |s.attempts| && s.attempts[s.locks[k]].op == k && HoldsLock(s.attempts[s.locks[k]].phase))
    && (forall a :: 0 <= a < |s.attempts| && HoldsLock(s.attempts[a].phase) ==>
          s.attempts[a].op in s.locks && s.locks[s.attempts[a].op] == a)
  }

  ghost predicate AttemptOk(s: State, a: nat)
    requires a < |s.attempts|
  {
    var op := s.attempts[a].op;
    match s.attempts[a].phase
    case Writing(_) => op !in s.table
    case Settled(r) => op in s.table && s.table[op].cached == Some(r)
    case NoDelta => op in s.skipped
    case Won => op in s.claims && s.claims[op] == a && a !in s.fired
    case Fired => op in s.claims && s.claims[op] == a
    case Lost => op in s.claims
    case Failed(Mismatch) => op in s.table
    case Failed(Unexpected) => false
    case _ => true
  }

  ghost predicate AttemptsOk(s: State) {
    forall a :: 0 <= a < |s.attempts| ==> AttemptOk(s, a)
  }

  ghost predicate ClaimsOk(s: State) {
    && (forall k :: k in s.claims ==>
          && s.claims[k] < |s.attempts| && s.attempts[s.claims[k]].op == k
          && (k in s.table || k in s.skipped))
    && (forall i :: 0 <= i < |s.fired| ==>
          s.fired[i] < |s.attempts| && s.attempts[s.fired[i]].phase.Fired?)
    && (forall i, j :: 0 <= i < j < |s.fired| ==> s.fired[i] != s.fired[j])
  }

  ghost predicate Inv(s: State) {
    TableMatchesCommits(s) && LocksMatchPhases(s) && ClaimsOk(s) && AttemptsOk(s)
  }

  /** What an effect must respect for the invariant to survive it. */
  ghost predicate EffectOk(p: Phase, v: View, e: Effect) {
    && (e.commit.Some? ==> p.Writing? && e.commit.value.outcome.Success? && e.commit.value.cached.Some?)
    && (e.lock.Take? ==> !HoldsLock(p) && HoldsLock(e.phase) && !v.locked)
    && (e.lock.Release? ==> HoldsLock(p) && !HoldsLock(e.phase))
    && (e.lock.Keep? ==> HoldsLock(p) == HoldsLock(e.phase))
    && (e.phase.Writing? ==> v.row.None? && e.commit.None?)
    && (e.phase.Settled? ==>
          || (v.row.Some? && v.row.value.cached == Some(e.phase.result) && e.commit.None?)
          || (e.commit.Some? && e.commit.value.cached == Some(e.phase.result)))
    && (e.phase.NoDelta? ==> e.skip)
    && (e.phase.Won? <==> e.claim)
    && (e.claim ==> !v.claimed && (p.Settled? || p.NoDelta?))
    && (e.phase.Lost? ==> v.claimed)
    && (e.phase.Fired? <==> e.fire)
    && (e.fire ==> p.Won?)
    && (p.Fired? ==> false)
    && (e.phase == Failed(Mismatch) ==> v.row.Some?)
    && e.phase != Failed(Unexpected)
  }

  lemma EffectOfIsOk(guarded: bool, s: State, a: nat, m: Move)
    requires Inv(s) && Enabled(s, Act(a, m))
    ensures EffectOk(s.attempts[a].phase, ViewOf(s, s.attempts[a].op),
                     EffectOf(guarded, s.attempts[a].phase, ViewOf(s, s.attempts[a].op), m))
  {
    hide EffectOk, EffectOf, CanMove;
    var op := s.attempts[a].op;
    if op in s.table { VisibleRowsAreSuccess(s, op); }
    LocalEffectIsOk(guarded, s.attempts[a].phase, ViewOf(s, op), m);
  }

  lemma LocalEffectIsOk(guarded: bool, p: Phase, v: View, m: Move)
    requires CanMove(p, v, m)
    requires v.row.Some? ==> v.row.value.outcome.Success? && v.row.value.cached.Some?
    ensures EffectOk(p, v, EffectOf(guarded, p, v, m))
  {
  }

  /** `in_progress` rows never become visible, so the gate's last branch is dead. */
  lemma VisibleRowsAreSuccess(s: State, op: OpKey)
    requires Inv(s) && op in s.table
    ensures s.table[op].outcome.Success? && s.table[op].cached.Some?
  {
  }

  /** The effect commits at most the first row of its key, as a success row. */
  ghost predicate CommitsFirst(s: State, a: nat, e: Effect) {
    && a < |s.attempts|
    && (e.commit.Some? ==>
          s.attempts[a].op !in s.table && e.commit.value.outcome.Success? && e.commit.value.cached.Some?)
  }

  lemma ApplyKeepsCommitsDistinct(s: State, a: nat, e: Effect)
    requires TableMatchesCommits(s) && CommitsFirst(s, a, e)
    ensures CommitsDistinct(Apply(s, a, e))
  {
    if e.commit.Some? {
      var s' := Apply(s, a, e);
      assert forall i :: 0 <= i < |s.commits| ==> s'.commits[i] == s.commits[i] && s.commits[i].op in s.table;
      assert s'.commits[|s.commits|].op == s.attempts[a].op;
    }
  }

  lemma ApplyKeepsCommitsShown(s: State, a: nat, e: Effect)
    requires TableMatchesCommits(s) && CommitsFirst(s, a, e)
    ensures CommitsShown(Apply(s, a, e))
  {
    hide CommitsDistinct, RowsCommitted;
  }

  lemma ApplyKeepsRowsCommitted(s: State, a: nat, e: Effect)
    requires TableMatchesCommits(s) && CommitsFirst(s, a, e)
    ensures RowsCommitted(Apply(s, a, e))
  {
    hide CommitsDistinct, CommitsShown;
    if e.commit.Some? {
      var s', op := Apply(s, a, e), s.attempts[a].op;
      assert s'.commits[|s.commits|].op == op;
      forall k | k in s'.table ensures exists i :: 0 <= i < |s'.commits| && s'.commits[i].op == k {
        if k != op {
          var i :| 0 <= i < |s.commits| && s.commits[i].op == k;
          assert s'.commits[i].op == k;
        }
      }
    }
  }

  lemma ApplyKeepsTable(s: State, a: nat, e: Effect)
    requires Inv(s) && a < |s.attempts| && EffectOk(s.attempts[a].phase, ViewOf(s, s.attempts[a].op), e)
    ensures TableMatchesCommits(Apply(s, a, e))
  {
    hide Apply, CommitsDistinct, CommitsShown, RowsCommitted, LocksMatchPhases, ClaimsOk;
    assert AttemptOk(s, a);
    ApplyKeepsCommitsDistinct(s, a, e);
    ApplyKeepsCommitsShown(s, a, e);
    ApplyKeepsRowsCommitted(s, a, e);
  }

  lemma ApplyKeepsLocks(s: State, a: nat, e: Effect)
    requires Inv(s) && a < |s.attempts| && EffectOk(s.attempts[a].phase, ViewOf(s, s.attempts[a].op), e)
    ensures LocksMatchPhases(Apply(s, a, e))
  {
    var s' := Apply(s, a, e);
    forall b | 0 <= b < |s'.attempts| && HoldsLock(s'.attempts[b].phase)
      ensures s'.attempts[b].op in s'.locks && s'.locks[s'.attempts[b].op] == b
    {
      if b != a { assert s'.attempts[b] == s.attempts[b]; }
    }
  }

  lemma ApplyKeepsClaims(s: State, a: nat, e: Effect)
    requires Inv(s) && a < |s.attempts| && EffectOk(s.attempts[a].phase, ViewOf(s, s.attempts[a].op), e)
    ensures ClaimsOk(Apply(s, a, e))
  {
    hide TableMatchesCommits, LocksMatchPhases;
    var s' := Apply(s, a, e);
    assert AttemptOk(s, a);
    assert forall i :: 0 <= i < |s.fired| ==> s'.fired[i] == s.fired[i];
  }

  lemma ApplyKeepsAttempts(s: State, a: nat, e: Effect)
    requires Inv(s) && a < |s.attempts| && EffectOk(s.attempts[a].phase, ViewOf(s, s.attempts[a].op), e)
    ensures AttemptsOk(Apply(s, a, e))
  {
    var s' := Apply(s, a, e);
    forall b | 0 <= b < |s'.attempts| ensures AttemptOk(s', b) {
      assert AttemptOk(s, b) && AttemptOk(s, a);
      OthersKeepTheirFacts(s, a, e, b);
    }
  }

  /** The move of `a` breaks no fact another attempt relies on. */
  lemma OthersKeepTheirFacts(s: State, a: nat, e: Effect, b: nat)
    requires Inv(s) && a < |s.attempts| && b < |s.attempts|
    requires EffectOk(s.attempts[a].phase, ViewOf(s, s.attempts[a].op), e)
    ensures AttemptOk(Apply(s, a, e), b)
  {
    var s' := Apply(s, a, e);
    assert AttemptOk(s, b) && AttemptOk(s, a);
    if b != a {
      assert s'.attempts[b] == s.attempts[b];
    }
  }

  lemma StepKeepsInv(guarded: bool, s: State, act: Action)
    requires Inv(s) && Enabled(s, act)
    ensures Inv(Step(guarded, s, act))
  {
    match act
    case Start(op) =>
      var s' := Step(guarded, s, act);
      forall b | 0 <= b < |s'.attempts| ensures AttemptOk(s', b) {
        if b < |s.attempts| { assert AttemptOk(s, b); }
      }
    case Act(a, m) =>
      var e := EffectOf(guarded, s.attempts[a].phase, ViewOf(s, s.attempts[a].op), m);
      EffectOfIsOk(guarded, s, a, m);
      ApplyKeepsTable(s, a, e);
      ApplyKeepsLocks(s, a, e);
      ApplyKeepsClaims(s, a, e);
      ApplyKeepsAttempts(s, a, e);
  }

  // ---------------------------------------------------------------------
  // Runs
  // ---------------------------------------------------------------------

  ghost predicate Legal(guarded: bool, acts: seq<Action>) {
    Exec(guarded, INIT, acts).Some?
  }

  /** The state after the first `i` actions of a run. */
  ghost function At(guarded: bool, acts: seq<Action>, i: nat): State
    requires Legal(guarded, acts) && i <= |acts|
  {
    var r := Exec(guarded, INIT, acts[..i]);
    if r.Some? then r.value else INIT
  }

  lemma {:induction false} ExecSplit(guarded: bool, s: State, xs: seq<Action>, ys: seq<Action>)
    ensures Exec(guarded, s, xs + ys) ==
            if Exec(guarded, s, xs).None? then None else Exec(guarded, Exec(guarded, s, xs).value, ys)
    decreases |xs|
  {
    if xs == [] {
      assert xs + ys == ys;
    } else {
      assert (xs + ys)[0] == xs[0] && (xs + ys)[1..] == xs[1..] + ys;
      if Enabled(s, xs[0]) {
        ExecSplit(guarded, Step(guarded, s, xs[0]), xs[1..], ys);
      }
    }
  }

  lemma AtStep(guarded: bool, acts: seq<Action>, i: nat)
    requires Legal(guarded, acts) && i < |acts|
    ensures Enabled(At(guarded, acts, i), acts[i])
    ensures At(guarded, acts, i + 1) == Step(guarded, At(guarded, acts, i), acts[i])
  {
    assert acts == acts[..i] + acts[i..];
    ExecSplit(guarded, INIT, acts[..i], acts[i..]);
    assert acts[..i + 1] == acts[..i] + [acts[i]];
    ExecSplit(guarded, INIT, acts[..i], [acts[i]]);
    var s := At(guarded, acts, i);
    assert Exec(guarded, s, [acts[i]]) == Exec(guarded, Step(guarded, s, acts[i]), []);
  }

  lemma {:induction false} ReachableInv(guarded: bool, acts: seq<Action>, i: nat)
    requires Legal(guarded, acts) && i <= |acts|
    ensures Inv(At(guarded, acts, i))
  {
    if i > 0 {
      ReachableInv(guarded, acts, i - 1);
      AtStep(guarded, acts, i - 1);
      StepKeepsInv(guarded, At(guarded, acts, i - 1), acts[i - 1]);
    }
  }

  lemma RowSurvivesStep(guarded: bool, s: State, act: Action, op: OpKey)
    requires Inv(s) && Enabled(s, act) && op in s.table
    ensures var s' := Step(guarded, s, act); op in s'.table && s'.table[op] == s.table[op]
  {
    if act.Act? {
      EffectOfIsOk(guarded, s, act.a, act.move);
      assert AttemptOk(s, act.a);
    }
  }

  /**
   * Main result 1. From its commit on, a key shows exactly the committed row in
   * every later state of the run.
   */
  lemma {:induction false} CommittedRowIsPermanent(guarded: bool, acts: seq<Action>, i: nat, j: nat, op: OpKey)
    requires Legal(guarded, acts) && i <= j <= |acts|
    requires op in At(guarded, acts, i).table
    ensures op in At(guarded, acts, j).table
    ensures At(guarded, acts, j).table[op] == At(guarded, acts, i).table[op]
    decreases j
  {
    if i < j {
      CommittedRowIsPermanent(guarded, acts, i, j - 1, op);
      AtStep(guarded, acts, j - 1);
      ReachableInv(guarded, acts, j - 1);
      RowSurvivesStep(guarded, At(guarded, acts, j - 1), acts[j - 1], op);
    }
  }

  /** ... and no run commits the canonical write of a key twice. */
  lemma WritesAtMostOnce(guarded: bool, acts: seq<Action>, i: nat, x: nat, y: nat)
    requires Legal(guarded, acts) && i <= |acts|
    requires x < y < |At(guarded, acts, i).commits|
    ensures At(guarded, acts, i).commits[x].op != At(guarded, acts, i).commits[y].op
  {
    ReachableInv(guarded, acts, i);
  }

  // ---------------------------------------------------------------------
  // What a commit stores, and what the gate answers
  // ---------------------------------------------------------------------

  /** The attempt has fixed its payload: whatever it still sends has this hash. */
  ghost predicate Carries(s: State, a: nat, hash: string) {
    && a < |s.attempts|
    && var p := s.attempts[a].phase;
       !p.Fresh? && !p.PastProbe? && (p.Calling? || p.Gated? || p.Writing? ==> p.hash == hash)
  }

  lemma CarriesEffect(guarded: bool, p: Phase, v: View, m: Move, hash: string)
    requires CanMove(p, v, m) && !p.Fresh? && !p.PastProbe? && (p.Calling? || p.Gated? || p.Writing? ==> p.hash == hash)
    ensures var q := EffectOf(guarded, p, v, m).phase;
            !q.Fresh? && !q.PastProbe? && (q.Calling? || q.Gated? || q.Writing? ==> q.hash == hash)
  {
  }

  lemma CarriesStep(guarded: bool, s: State, act: Action, a: nat, hash: string)
    requires Enabled(s, act) && Carries(s, a, hash)
    ensures Carries(Step(guarded, s, act), a, hash)
  {
    hide EffectOf, CanMove;
    if act.Act? && act.a == a {
      CarriesEffect(guarded, s.attempts[a].phase, ViewOf(s, s.attempts[a].op), act.move, hash);
    }
  }

  lemma RecomputeCarries(guarded: bool, s: State, a: nat, hash: string)
    requires Enabled(s, Act(a, Recompute(hash)))
    ensures Carries(Step(guarded, s, Act(a, Recompute(hash))), a, hash)
  {
  }

  /** From its recompute on an attempt keeps its payload hash. */
  lemma {:induction false} PayloadIsFixed(guarded: bool, acts: seq<Action>, i: nat, j: nat, a: nat, hash: string)
    requires Legal(guarded, acts) && i < j <= |acts| && acts[i] == Act(a, Recompute(hash))
    ensures Carries(At(guarded, acts, j), a, hash)
    decreases j
  {
    hide At, Legal, Step, Carries;
    AtStep(guarded, acts, j - 1);
    if j == i + 1 {
      RecomputeCarries(guarded, At(guarded, acts, i), a, hash);
    } else {
      PayloadIsFixed(guarded, acts, i, j - 1, a, hash);
      CarriesStep(guarded, At(guarded, acts, j - 1), acts[j - 1], a, hash);
    }
  }

  lemma CarriedExists(s: State, a: nat, hash: string)
    ensures Carries(s, a, hash) ==> a < |s.attempts|
  {
  }

  lemma CommitStep(guarded: bool, s: State, a: nat, hash: string, result: string, delivered: bool)
    requires Enabled(s, Act(a, CommitTx(result, delivered))) && Carries(s, a, hash)
    ensures var t := Step(guarded, s, Act(a, CommitTx(result, delivered))); var op := s.attempts[a].op;
            && a < |t.attempts| && t.attempts[a] == Attempt(op, if delivered then Settled(result) else Failed(Crashed))
            && op in t.table && t.table[op] == Row(hash, Success, Some(result))
            && t.commits == s.commits + [Commit(op, a, hash, result)]
  {
  }

  /**
   * What a commit stores. If an attempt recomputed payload `hash` and later committed
   * `result`, then in every later state its key shows exactly that hash and that
   * result, and the committer knows the result unless the answer was lost.
   */
  lemma CommitStoresTheCall(guarded: bool, acts: seq<Action>, i: nat, j: nat, k: nat, a: nat, hash: string, result: string, delivered: bool)
    requires Legal(guarded, acts) && i < j < k <= |acts|
    requires acts[i] == Act(a, Recompute(hash)) && acts[j] == Act(a, CommitTx(result, delivered))
    ensures a < |At(guarded, acts, j).attempts| && a < |At(guarded, acts, j + 1).attempts|
    ensures var op := At(guarded, acts, j).attempts[a].op;
            && At(guarded, acts, j + 1).attempts[a] == Attempt(op, if delivered then Settled(result) else Failed(Crashed))
            && op in At(guarded, acts, k).table && At(guarded, acts, k).table[op] == Row(hash, Success, Some(result))
  {
    hide At, Legal, Step, Carries;
    PayloadIsFixed(guarded, acts, i, j, a, hash);
    AtStep(guarded, acts, j);
    CarriedExists(At(guarded, acts, j), a, hash);
    CommitStep(guarded, At(guarded, acts, j), a, hash, result, delivered);
    CommittedRowIsPermanent(guarded, acts, j + 1, k, At(guarded, acts, j).attempts[a].op);
  }

  lemma GateStep(guarded: bool, s: State, b: nat, hash: string, row: Row)
    requires Enabled(s, Act(b, Gate)) && Carries(s, b, hash)
    requires s.attempts[b].op in s.table && s.table[s.attempts[b].op] == row && row.outcome.Success? && row.cached.Some?
    ensures var t := Step(guarded, s, Act(b, Gate));
            b < |t.attempts| && t.attempts[b].phase == if hash == row.hash then Settled(row.cached.value) else Failed(Mismatch)
  {
  }

  /**
   * What the gate answers after a commit. An attempt under the same key that
   * recomputed `hash'` and reaches the gate after `result` was committed with `hash`
   * replays `result` if the hashes agree and ends in a mismatch if they do not.
   */
  lemma GateAfterCommit(guarded: bool, acts: seq<Action>, i: nat, j: nat, a: nat, hash: string, result: string, delivered: bool,
                        m: nat, g: nat, b: nat, hash': string)
    requires Legal(guarded, acts) && i < j < g < |acts| && m < g
    requires acts[i] == Act(a, Recompute(hash)) && acts[j] == Act(a, CommitTx(result, delivered))
    requires acts[m] == Act(b, Recompute(hash')) && acts[g] == Act(b, Gate)
    requires a < |At(guarded, acts, j).attempts| && b < |At(guarded, acts, g).attempts|
    requires At(guarded, acts, j).attempts[a].op == At(guarded, acts, g).attempts[b].op
    ensures b < |At(guarded, acts, g + 1).attempts|
    ensures At(guarded, acts, g + 1).attempts[b].phase == if hash' == hash then Settled(result) else Failed(Mismatch)
  {
    hide At, Legal, Step, Carries;
    CommitStoresTheCall(guarded, acts, i, j, g, a, hash, result, delivered);
    PayloadIsFixed(guarded, acts, m, g, b, hash');
    AtStep(guarded, acts, g);
    GateStep(guarded, At(guarded, acts, g), b, hash', Row(hash, Success, Some(result)));
  }

  /** The attempt got the committed result from its probe and can only claim, fire or crash. */
  ghost predicate ShortCircuited(s: State, a: nat, result: string) {
    && a < |s.attempts|
    && var p := s.attempts[a].phase;
       p == Settled(result) || p.Won? || p.Lost? || p.Fired? || p == Failed(Crashed)
  }

  lemma ShortCircuitedStep(s: State, act: Action, a: nat, result: string)
    requires Enabled(s, act) && ShortCircuited(s, a, result)
    ensures ShortCircuited(Step(true, s, act), a, result)
  {
  }

  /**
   * Main result 2. An attempt that probes after its key committed holds the
   * committed result right away and never calls, locks or writes afterwards,
   * whatever every other attempt does.
   */
  lemma {:induction false} ProbeAfterCommitNeverCalls(acts: seq<Action>, i: nat, j: nat, a: nat)
    requires Legal(true, acts) && i < j <= |acts|
    requires acts[i] == Act(a, Probe)
    requires a < |At(true, acts, i).attempts|
    requires At(true, acts, i).attempts[a].op in At(true, acts, i).table
    ensures var op := At(true, acts, i).attempts[a].op;
            var row := At(true, acts, i).table[op];
            && row.cached.Some? && ShortCircuited(At(true, acts, j), a, row.cached.value)
            && (j == i + 1 ==> At(true, acts, j).attempts[a].phase == Settled(row.cached.value))
  {
    var op := At(true, acts, i).attempts[a].op;
    ReachableInv(true, acts, i);
    VisibleRowsAreSuccess(At(true, acts, i), op);
    AtStep(true, acts, j - 1);
    if j > i + 1 {
      ProbeAfterCommitNeverCalls(acts, i, j - 1, a);
      ShortCircuitedStep(At(true, acts, j - 1), acts[j - 1], a, At(true, acts, i).table[op].cached.value);
    }
  }

  /** All callers that learn a result under one key, at any two moments of a run, learn the same one. */
  lemma CallersAgree(guarded: bool, acts: seq<Action>, i: nat, j: nat, a: nat, b: nat)
    requires Legal(guarded, acts) && i <= j <= |acts|
    requires a < |At(guarded, acts, i).attempts| && At(guarded, acts, i).attempts[a].phase.Settled?
    requires b < |At(guarded, acts, j).attempts| && At(guarded, acts, j).attempts[b].phase.Settled?
    requires At(guarded, acts, i).attempts[a].op == At(guarded, acts, j).attempts[b].op
    ensures At(guarded, acts, i).attempts[a].phase.result == At(guarded, acts, j).attempts[b].phase.result
  {
    ReachableInv(guarded, acts, i);
    ReachableInv(guarded, acts, j);
    assert AttemptOk(At(guarded, acts, i), a) && AttemptOk(At(guarded, acts, j), b);
    CommittedRowIsPermanent(guarded, acts, i, j, At(guarded, acts, i).attempts[a].op);
  }

  ghost predicate Mismatched(s: State, op: OpKey, b: nat) {
    b < |s.attempts| && s.attempts[b] == Attempt(op, Failed(Mismatch))
  }

  ghost predicate RacedFor(s: State, op: OpKey, b: nat) {
    b < |s.attempts| && s.attempts[b].op == op && Racing(s.attempts[b].phase)
  }

  /** Once a key is committed, an attempt that is not already racing can no longer mismatch. */
  lemma NotRacingStaysClear(s: State, act: Action, op: OpKey, b: nat)
    requires Inv(s) && Enabled(s, act) && op in s.table
    requires !RacedFor(s, op, b) && !Mismatched(s, op, b)
    ensures !RacedFor(Step(true, s, act), op, b) && !Mismatched(Step(true, s, act), op, b)
  {
    if act.Act? && act.a == b && s.attempts[b].op == op {
      VisibleRowsAreSuccess(s, op);
      NotRacingEffect(s.attempts[b].phase, ViewOf(s, op), act.move);
    }
  }

  lemma NotRacingEffect(p: Phase, v: View, m: Move)
    requires CanMove(p, v, m) && v.row.Some? && v.row.value.outcome.Success? && !Racing(p)
    ensures var q := EffectOf(true, p, v, m).phase; !Racing(q) && q != Failed(Mismatch)
  {
  }

  /** The step that commits a key moves only the committer, which was not racing any more. */
  lemma CommitStepKeepsRacers(s: State, act: Action, op: OpKey, b: nat)
    requires Inv(s) && Enabled(s, act) && op !in s.table && op in Step(true, s, act).table
    requires RacedFor(Step(true, s, act), op, b) || Mismatched(Step(true, s, act), op, b)
    ensures RacedFor(s, op, b)
  {
    EffectOfIsOk(true, s, act.a, act.move);
    assert act.move.CommitTx?;
    NoMismatchBeforeCommit(s, op, b);
  }

  lemma NoMismatchBeforeCommit(s: State, op: OpKey, b: nat)
    requires Inv(s) && op !in s.table
    ensures !Mismatched(s, op, b)
  {
    if b < |s.attempts| { assert AttemptOk(s, b); }
  }

  /**
   * Main result 3. Whoever ends in a payload mismatch was already past its
   * probe when the key committed.
   */
  lemma {:induction false} MismatchMeansRaced(acts: seq<Action>, c: nat, j: nat, op: OpKey, b: nat)
    requires Legal(true, acts) && c < j <= |acts|
    requires op !in At(true, acts, c).table && op in At(true, acts, c + 1).table
    requires Mismatched(At(true, acts, j), op, b) || RacedFor(At(true, acts, j), op, b)
    ensures RacedFor(At(true, acts, c), op, b)
    decreases j
  {
    AtStep(true, acts, j - 1);
    ReachableInv(true, acts, j - 1);
    var s := At(true, acts, j - 1);
    if j == c + 1 {
      CommitStepKeepsRacers(s, acts[c], op, b);
    } else {
      CommittedRowIsPermanent(true, acts, c + 1, j - 1, op);
      if !RacedFor(s, op, b) && !Mismatched(s, op, b) {
        NotRacingStaysClear(s, acts[j - 1], op, b);
        assert false;
      }
      MismatchMeansRaced(acts, c, j - 1, op, b);
    }
  }

  ghost function MismatchSet(s: State, op: OpKey): set<nat> {
    set b: nat | b < |s.attempts| && Mismatched(s, op, b)
  }

  ghost function RacerSet(s: State, op: OpKey): set<nat> {
    set b: nat | b < |s.attempts| && RacedFor(s, op, b)
  }

  lemma SubsetCard<T>(x: set<T>, y: set<T>)
    requires x <= y
    ensures |x| <= |y|
  {
    assert y == x + (y - x);
  }

  /** The number of mismatches under a key is bounded by the attempts racing at its commit. */
  lemma MismatchesAreBounded(acts: seq<Action>, c: nat, j: nat, op: OpKey)
    requires Legal(true, acts) && c < j <= |acts|
    requires op !in At(true, acts, c).table && op in At(true, acts, c + 1).table
    ensures MismatchSet(At(true, acts, j), op) <= RacerSet(At(true, acts, c), op)
    ensures |MismatchSet(At(true, acts, j), op)| <= |RacerSet(At(true, acts, c), op)|
  {
    forall b | b in MismatchSet(At(true, acts, j), op) ensures b in RacerSet(At(true, acts, c), op) {
      MismatchMeansRaced(acts, c, j, op, b);
    }
    SubsetCard(MismatchSet(At(true, acts, j), op), RacerSet(At(true, acts, c), op));
  }

  /** Main result 4. The side effects of a key run at most once. */
  lemma SideEffectsFireAtMostOnce(guarded: bool, acts: seq<Action>, i: nat, x: nat, y: nat)
    requires Legal(guarded, acts) && i <= |acts|
    requires x < y < |At(guarded, acts, i).fired|
    ensures var s := At(guarded, acts, i);
            && s.fired[x] < |s.attempts| && s.fired[y] < |s.attempts|
            && s.attempts[s.fired[x]].op != s.attempts[s.fired[y]].op
  {
    ReachableInv(guarded, acts, i);
    var s := At(guarded, acts, i);
    assert AttemptOk(s, s.fired[x]) && AttemptOk(s, s.fired[y]);
  }

  /** Every single firing holds the claim of its key and stands on a durable write or a recorded no-op. */
  lemma SideEffectsAreBacked(guarded: bool, acts: seq<Action>, i: nat, x: nat)
    requires Legal(guarded, acts) && i <= |acts|
    requires x < |At(guarded, acts, i).fired|
    ensures var s := At(guarded, acts, i); var a := s.fired[x];
            && a < |s.attempts|
            && s.attempts[a].op in s.claims && s.claims[s.attempts[a].op] == a
            && (s.attempts[a].op in s.table || s.attempts[a].op in s.skipped)
  {
    ReachableInv(guarded, acts, i);
    assert AttemptOk(At(guarded, acts, i), At(guarded, acts, i).fired[x]);
  }

  // ---------------------------------------------------------------------
  // A winner that dies
  // ---------------------------------------------------------------------

  /** The side effects of the key have run. */
  ghost predicate Fires(s: State, op: OpKey) {
    exists x :: 0 <= x < |s.fired| && s.fired[x] < |s.attempts| && s.attempts[s.fired[x]].op == op
  }

  /** The holder of a claim is about to fire, has fired, or is dead. */
  ghost predicate HolderOk(s: State, op: OpKey) {
    op in s.claims ==>
      && s.claims[op] < |s.attempts| && s.attempts[s.claims[op]].op == op
      && var p := s.attempts[s.claims[op]].phase;
         p.Won? || p.Failed? || (p.Fired? && s.claims[op] in s.fired)
  }

  ghost predicate DeadHolder(s: State, op: OpKey) {
    op in s.claims && s.claims[op] < |s.attempts| && s.attempts[s.claims[op]].phase.Failed?
  }

  lemma StepKeepsHolder(guarded: bool, s: State, act: Action, op: OpKey)
    requires Inv(s) && Enabled(s, act) && HolderOk(s, op)
    ensures HolderOk(Step(guarded, s, act), op)
    ensures DeadHolder(s, op) ==> DeadHolder(Step(guarded, s, act), op)
  {
    hide TableMatchesCommits, LocksMatchPhases, AttemptsOk;
    if act.Act? {
      hide EffectOf, EffectOk;
      var p, v := s.attempts[act.a].phase, ViewOf(s, s.attempts[act.a].op);
      HolderEffect(guarded, p, v, act.move);
    }
  }

  lemma HolderEffect(guarded: bool, p: Phase, v: View, m: Move)
    requires CanMove(p, v, m)
    ensures var e := EffectOf(guarded, p, v, m);
            && (e.claim ==> !v.claimed && e.phase.Won?)
            && (p.Won? ==> (e.phase.Fired? && e.fire) || e.phase.Failed?)
            && !p.Fired? && !p.Failed?
  {
  }

  lemma {:induction false} HolderHolds(guarded: bool, acts: seq<Action>, i: nat, op: OpKey)
    requires Legal(guarded, acts) && i <= |acts|
    ensures HolderOk(At(guarded, acts, i), op)
  {
    if i > 0 {
      hide HolderOk, Inv, Step;
      HolderHolds(guarded, acts, i - 1, op);
      ReachableInv(guarded, acts, i - 1);
      AtStep(guarded, acts, i - 1);
      StepKeepsHolder(guarded, At(guarded, acts, i - 1), acts[i - 1], op);
    } else {
      assert acts[..0] == [];
    }
  }

  lemma {:induction false} DeadHolderStays(guarded: bool, acts: seq<Action>, i: nat, j: nat, op: OpKey)
    requires Legal(guarded, acts) && i <= j <= |acts| && DeadHolder(At(guarded, acts, i), op)
    ensures DeadHolder(At(guarded, acts, j), op)
    decreases j
  {
    if i < j {
      hide HolderOk, Inv, Step, DeadHolder;
      DeadHolderStays(guarded, acts, i, j - 1, op);
      HolderHolds(guarded, acts, j - 1, op);
      ReachableInv(guarded, acts, j - 1);
      AtStep(guarded, acts, j - 1);
      StepKeepsHolder(guarded, At(guarded, acts, j - 1), acts[j - 1], op);
    }
  }

  lemma DeadHolderIsSilent(s: State, op: OpKey)
    requires Inv(s) && DeadHolder(s, op)
    ensures !Fires(s, op)
  {
    hide TableMatchesCommits, LocksMatchPhases;
    forall x | 0 <= x < |s.fired| ensures s.fired[x] < |s.attempts| && s.attempts[s.fired[x]].op != op {
      assert AttemptOk(s, s.fired[x]);
    }
  }

  lemma LoggedHolderFires(s: State, op: OpKey)
    requires op in s.claims && HolderOk(s, op)
    ensures s.claims[op] in s.fired ==> Fires(s, op)
  {
  }

  ghost predicate CanStillFire(guarded: bool, acts: seq<Action>, op: OpKey) {
    exists more :: Legal(guarded, acts + more) && Fires(At(guarded, acts + more, |acts + more|), op)
  }

  lemma AtPrefix(guarded: bool, acts: seq<Action>, more: seq<Action>)
    requires Legal(guarded, acts + more)
    ensures Legal(guarded, acts) && At(guarded, acts + more, |acts|) == At(guarded, acts, |acts|)
  {
    ExecSplit(guarded, INIT, acts, more);
    assert (acts + more)[..|acts|] == acts && acts[..|acts|] == acts;
  }

  lemma WinnerCanFire(guarded: bool, acts: seq<Action>, op: OpKey)
    requires Legal(guarded, acts)
    requires var s := At(guarded, acts, |acts|);
             op in s.claims && HolderOk(s, op) && s.attempts[s.claims[op]].phase.Won?
    ensures CanStillFire(guarded, acts, op)
  {
    var s := At(guarded, acts, |acts|);
    var h := s.claims[op];
    var m := Act(h, Fire);
    var all := acts + [m];
    assert acts[..|acts|] == acts && all[..|all|] == all;
    ExecSplit(guarded, INIT, acts, [m]);
    var t := Step(guarded, s, m);
    assert Exec(guarded, s, [m]) == Exec(guarded, t, []);
    assert t.fired[|s.fired|] == h;
    assert Fires(At(guarded, all, |all|), op);
  }

  /**
   * After any run, the side effects of a claimed key that have not run can still run
   * exactly when the holder of the claim is alive between claiming and firing: a
   * winner that dies there silences its key for good.
   */
  lemma CanStillFireExactly(guarded: bool, acts: seq<Action>, op: OpKey)
    requires Legal(guarded, acts) && op in At(guarded, acts, |acts|).claims && !Fires(At(guarded, acts, |acts|), op)
    ensures At(guarded, acts, |acts|).claims[op] < |At(guarded, acts, |acts|).attempts|
    ensures CanStillFire(guarded, acts, op) <==>
            At(guarded, acts, |acts|).attempts[At(guarded, acts, |acts|).claims[op]].phase.Won?
  {
    hide At, Inv, Legal, Step;
    var s := At(guarded, acts, |acts|);
    HolderHolds(guarded, acts, |acts|, op);
    if s.attempts[s.claims[op]].phase.Won? {
      WinnerCanFire(guarded, acts, op);
    } else {
      LoggedHolderFires(s, op);
      assert DeadHolder(s, op);
      hide HolderOk, DeadHolder;
      forall more | Legal(guarded, acts + more) ensures !Fires(At(guarded, acts + more, |acts + more|), op) {
        AtPrefix(guarded, acts, more);
        DeadHolderStays(guarded, acts + more, |acts|, |acts + more|, op);
        ReachableInv(guarded, acts + more, |acts + more|);
        DeadHolderIsSilent(At(guarded, acts + more, |acts + more|), op);
      }
    }
  }

  // ---------------------------------------------------------------------
  // Recovery
  // ---------------------------------------------------------------------

  /** Main result 5. A committed key is never poisoned: one more attempt always reaches the claim. */
  lemma RetryAfterCommitReachesClaim(acts: seq<Action>, op: OpKey)
    requires Legal(true, acts) && op in At(true, acts, |acts|).table
    ensures var n := |At(true, acts, |acts|).attempts|;
            var more := acts + [Start(op), Act(n, Probe), Act(n, Claim)];
            Legal(true, more) && op in At(true, more, |more|).claims
  {
    var s := At(true, acts, |acts|);
    var n := |s.attempts|;
    var tail := [Start(op), Act(n, Probe), Act(n, Claim)];
    assert acts[..|acts|] == acts;
    ReachableInv(true, acts, |acts|);
    VisibleRowsAreSuccess(s, op);
    var s1 := Step(true, s, tail[0]);
    assert s1.attempts[n] == Attempt(op, Fresh);
    var s2 := Step(true, s1, tail[1]);
    assert s2.attempts[n].phase.Settled?;
    var s3 := Step(true, s2, tail[2]);
    assert tail[1..] == [Act(n, Probe), Act(n, Claim)];
    assert tail[1..][1..] == [Act(n, Claim)];
    assert Exec(true, s2, [Act(n, Claim)]) == Exec(true, s3, []);
    assert Exec(true, s, tail) == Some(s3);
    ExecSplit(true, INIT, acts, tail);
    var more := acts + tail;
    assert more[..|more|] == more;
  }

  // ---------------------------------------------------------------------
  // The caller before the probe existed
  // ---------------------------------------------------------------------

  /** Every attempt under `op` that is still moving carries a payload that drifted from the committed one. */
  ghost predicate Drifted(s: State, op: OpKey) {
    && op in s.table && op !in s.claims
    && forall b :: 0 <= b < |s.attempts| && s.attempts[b].op == op ==>
         var p := s.attempts[b].phase;
         || p.Fresh? || p.PastProbe? || p.Failed?
         || ((p.Calling? || p.Gated?) && p.hash != s.table[op].hash)
  }

  /** An action that keeps the payload of `op` away from the committed hash. */
  ghost predicate KeepsDrifting(s: State, op: OpKey, act: Action) {
    act.Act? && act.a < |s.attempts| && s.attempts[act.a].op == op && op in s.table ==>
      && !act.move.SkipWrite?
      && (act.move.Recompute? ==> act.move.hash != s.table[op].hash)
  }

  lemma DriftedStep(s: State, act: Action, op: OpKey)
    requires Enabled(s, act) && Drifted(s, op) && KeepsDrifting(s, op, act)
    ensures Drifted(Step(false, s, act), op)
  {
    var s' := Step(false, s, act);
    if act.Act? && s.attempts[act.a].op == op {
      var p := s.attempts[act.a].phase;
      assert p.Fresh? || p.PastProbe? || p.Failed? || p.Calling? || p.Gated?;
    }
  }

  /**
   * Without the probe, a commit whose answer was lost poisons its key: as long
   * as the recomputed payload differs from the committed one, no run ever
   * records the claim.
   */
  lemma {:induction false} UnguardedKeyStaysPoisoned(acts: seq<Action>, i: nat, j: nat, op: OpKey)
    requires Legal(false, acts) && i <= j <= |acts|
    requires Drifted(At(false, acts, i), op)
    requires forall k :: i <= k < j ==> KeepsDrifting(At(false, acts, k), op, acts[k])
    ensures Drifted(At(false, acts, j), op) && op !in At(false, acts, j).claims
    decreases j
  {
    if i < j {
      UnguardedKeyStaysPoisoned(acts, i, j - 1, op);
      AtStep(false, acts, j - 1);
      DriftedStep(At(false, acts, j - 1), acts[j - 1], op);
    }
  }

  /** The poisoned situation is reachable, and the very same actions leave a guarded caller recoverable. */
  lemma PoisonIsReachable(op: OpKey, hash: string, result: string)
    ensures var acts := LostAnswerRun(op, hash, result);
            && Legal(false, acts) && Drifted(At(false, acts, |acts|), op)
            && Legal(true, acts) && At(true, acts, |acts|) == At(false, acts, |acts|)
  {
    var acts := LostAnswerRun(op, hash, result);
    assert acts[..|acts|] == acts;
    var s1 := Step(false, INIT, acts[0]);
    var s2 := Step(false, s1, acts[1]);
    var s3 := Step(false, s2, acts[2]);
    var s4 := Step(false, s3, acts[3]);
    var s5 := Step(false, s4, acts[4]);
    var s6 := Step(false, s5, acts[5]);
    ExecSix(false, INIT, acts, s1, s2, s3, s4, s5, s6);
    ExecSix(true, INIT, acts, s1, s2, s3, s4, s5, s6);
  }

  function LostAnswerRun(op: OpKey, hash: string, result: string): seq<Action> {
    [Start(op), Act(0, Probe), Act(0, Recompute(hash)), Act(0, Lock), Act(0, Gate), Act(0, CommitTx(result, false))]
  }

  lemma ExecSix(g: bool, s0: State, acts: seq<Action>, s1: State, s2: State, s3: State, s4: State, s5: State, s6: State)
    requires |acts| == 6
    requires Enabled(s0, acts[0]) && s1 == Step(g, s0, acts[0])
    requires Enabled(s1, acts[1]) && s2 == Step(g, s1, acts[1])
    requires Enabled(s2, acts[2]) && s3 == Step(g, s2, acts[2])
    requires Enabled(s3, acts[3]) && s4 == Step(g, s3, acts[3])
    requires Enabled(s4, acts[4]) && s5 == Step(g, s4, acts[4])
    requires Enabled(s5, acts[5]) && s6 == Step(g, s5, acts[5])
    ensures Exec(g, s0, acts) == Some(s6)
  {
    assert acts[5..][1..] == [];
    assert Exec(g, s5, acts[5..]) == Exec(g, s6, []);
    assert acts[4..][1..] == acts[5..];
    assert Exec(g, s4, acts[4..]) == Some(s6);
    assert acts[3..][1..] == acts[4..];
    assert Exec(g, s3, acts[3..]) == Some(s6);
    assert acts[2..][1..] == acts[3..];
    assert Exec(g, s2, acts[2..]) == Some(s6);
    assert acts[1..][1..] == acts[2..];
    assert Exec(g, s1, acts[1..]) == Some(s6);
  }
}
