/**
 * The save-on-pause hook as a timed machine. The environment owns the clock and
 * the pending timeouts; a timeout fires at its due time or later, never earlier.
 * Renders may change the value, the delay and the save callback.
 */
module DebouncedSave {
  import opened Common

  datatype Timeout<T> = Timeout(due: nat, value: T)

  /** One call of the save callback: when, with what, and which render's callback. */
  datatype Save<T> = Save(time: nat, value: T, callback: nat)

  datatype View<T> = View(
    mounted: bool,
    value: T,
    delay: nat,
    timer: Option<nat>,
    initial: bool,
    latest: nat,
    cleanup: bool,
    now: nat,
    nextId: nat,
    pending: map<nat, Timeout<T>>,
    saves: seq<Save<T>>)

  datatype Action<T> =
    | Render(value: T, callback: nat, delay: nat)
    | Advance(ms: nat)
    | Fire(id: nat)
    | Unmount

  // ----- what each step does ---------------------------------------------------

  /** `if (timer.current) clearTimeout(timer.current)`. */
  function ClearTimer<T>(v: View<T>): View<T> {
    if v.timer.Some? then v.(pending := v.pending - {v.timer.value}) else v
  }

  function RunCleanup<T>(v: View<T>): View<T> { (if v.cleanup then ClearTimer(v) else v).(cleanup := false) }

  function EffectBody<T>(v: View<T>): View<T> {
    if v.initial then v.(initial := false)
    else
      var w := ClearTimer(v);
      w.(timer := Some(w.nextId), nextId := w.nextId + 1, cleanup := true,
         pending := w.pending[w.nextId := Timeout(w.now + w.delay, w.value)])
  }

  predicate Changes<T(==)>(v: View<T>, a: Action<T>) {
    a.Render? && v.mounted && (a.value != v.value || a.delay != v.delay)
  }

  function Next<T(==)>(v: View<T>, a: Action<T>): View<T> {
    match a
    case Render(value, callback, delay) =>
      if !v.mounted then v
      else if !Changes(v, a) then v.(latest := callback)
      else EffectBody(RunCleanup(v).(value := value, delay := delay, latest := callback))
    case Advance(ms) => v.(now := v.now + ms)
    case Fire(id) =>
      if id !in v.pending || v.now < v.pending[id].due then v
      else v.(pending := v.pending - {id}, saves := v.saves + [Save(v.now, v.pending[id].value, v.latest)])
    case Unmount => RunCleanup(v).(mounted := false)
  }

  function Mounted<T>(value: T, callback: nat, delay: nat): View<T> {
    EffectBody(View(true, value, delay, None, true, callback, false, 0, 0, map[], []))
  }

  class DebouncedHook<T(==)> {
    var mounted: bool
    var value: T
    var delay: nat
    var timer: Option<nat>
    var initial: bool
    var latest: nat
    var cleanup: bool
    var now: nat
    var nextId: nat
    var pending: map<nat, Timeout<T>>
    var saves: seq<Save<T>>

    ghost function State(): View<T>
      reads this
    {
      View(mounted, value, delay, timer, initial, latest, cleanup, now, nextId, pending, saves)
    }

    constructor (value: T, callback: nat, delay: nat)
      ensures State() == Mounted(value, callback, delay)
    {
      mounted, this.value, this.delay, latest := true, value, delay, callback;
      timer, initial, cleanup := None, true, false;
      now, nextId, pending, saves := 0, 0, map[], [];
      new;
      Effect();
    }

    method Clear()
      modifies this
      ensures State() == ClearTimer(old(State()))
    {
      if timer.Some? { pending := pending - {timer.value}; }
    }

    method Effect()
      modifies this
      ensures State() == EffectBody(old(State()))
    {
      if initial {
        initial := false;
        return;
      }
      Clear();
      timer := Some(nextId);
      pending := pending[nextId := Timeout(now + delay, value)];
      nextId := nextId + 1;
      cleanup := true;
    }

    method Rerender(value: T, callback: nat, delay: nat)
      modifies this
      ensures State() == Next(old(State()), Render(value, callback, delay))
    {
      if !mounted { return; }
      latest := callback;
      if value == this.value && delay == this.delay { return; }
      if cleanup { Clear(); }
      cleanup := false;
      this.value, this.delay := value, delay;
      Effect();
    }

    method OnTimeout(id: nat)
      requires id in pending && pending[id].due <= now
      modifies this
      ensures State() == Next(old(State()), Fire(id))
    {
      saves := saves + [Save(now, pending[id].value, latest)];
      pending := pending - {id};
    }

    method Dispose()
      modifies this
      ensures State() == Next(old(State()), Unmount)
    {
      if cleanup { Clear(); }
      cleanup := false;
      mounted := false;
    }
  }

  // ----- runs ------------------------------------------------------------------

  /** How the hook is mounted. */
  datatype Start<T> = Start(value: T, callback: nat, delay: nat)

  function Exec<T(==)>(s: Start<T>, run: seq<Action<T>>): View<T> {
    if run == [] then Mounted(s.value, s.callback, s.delay)
    else Next(Exec(s, run[..|run| - 1]), run[|run| - 1])
  }

  /** The number of renders that changed the value or the delay. */
  function ChangeCount<T(==)>(s: Start<T>, run: seq<Action<T>>): nat {
    if run == [] then 0
    else ChangeCount(s, run[..|run| - 1]) + if Changes(Exec(s, run[..|run| - 1]), run[|run| - 1]) then 1 else 0
  }

  function ChangesAt<T(==)>(s: Start<T>, run: seq<Action<T>>): set<nat> {
    set k: nat | k < |run| && Changes(Exec(s, run[..k]), run[k])
  }

  /** It is their number. */
  lemma {:induction false} ChangeCountIsTheirNumber<T>(s: Start<T>, run: seq<Action<T>>)
    ensures ChangeCount(s, run) == |ChangesAt(s, run)|
  {
    if run != [] {
      hide Exec, Changes;
      var before, n := run[..|run| - 1], |run| - 1;
      ChangeCountIsTheirNumber(s, before);
      assert forall k :: 0 <= k < n ==> before[..k] == run[..k] && before[k] == run[k];
      assert ChangesAt(s, run) == ChangesAt(s, before) + (if Changes(Exec(s, before), run[n]) then {n} else {});
    }
  }

  /** When the last of them happened. */
  function ChangedAt<T(==)>(s: Start<T>, run: seq<Action<T>>): nat {
    if run == [] then 0
    else
      var before := run[..|run| - 1];
      if Changes(Exec(s, before), run[|run| - 1]) then Exec(s, before).now else ChangedAt(s, before)
  }

  /**
   * `changes` renders changed something, the last at `at`. Either one timeout
   * waits with the current value, or none does; then every change is accounted
   * for by a save of the current value, or the hook is gone.
   */
  ghost predicate Inv<T>(v: View<T>, changes: nat, at: nat) {
    && !v.initial
    && at <= v.now
    && (v.timer.Some? <==> changes > 0)
    && (v.timer.Some? ==> v.timer.value < v.nextId)
    && (v.mounted ==> v.cleanup == v.timer.Some?)
    && (v.pending == map[] || (v.timer.Some? && v.mounted && v.pending == map[v.timer.value := Timeout(at + v.delay, v.value)]))
    && |v.saves| + |v.pending| <= changes
    && (v.saves != [] ==> LastSave(v).time <= v.now)
    && (v.saves != [] && v.pending != map[] ==> LastSave(v).time <= at)
    && (changes > 0 && v.mounted && v.pending == map[] ==> v.saves != [] && LastSave(v).value == v.value && at + v.delay <= LastSave(v).time)
  }

  function LastSave<T>(v: View<T>): Save<T>
    requires v.saves != []
  {
    v.saves[|v.saves| - 1]
  }

  lemma CleanupEmpties<T>(v: View<T>, changes: nat, at: nat)
    requires Inv(v, changes, at)
    ensures v.mounted ==> RunCleanup(v) == v.(pending := map[], cleanup := false)
    ensures |v.saves| <= changes
  {
    if v.pending != map[] { assert v.pending - {v.timer.value} == map[]; }
  }

  lemma EffectStartsOne<T>(w: View<T>)
    requires w.pending == map[] && !w.initial
    ensures EffectBody(w) == w.(timer := Some(w.nextId), nextId := w.nextId + 1, cleanup := true,
                                pending := map[w.nextId := Timeout(w.now + w.delay, w.value)])
  {
    assert ClearTimer(w).pending == map[];
  }

  lemma ChangeKeepsInv<T>(v: View<T>, value: T, callback: nat, delay: nat, changes: nat, at: nat)
    requires Inv(v, changes, at) && v.mounted
    ensures Inv(EffectBody(RunCleanup(v).(value := value, delay := delay, latest := callback)), changes + 1, v.now)
  {
    hide EffectBody, RunCleanup;
    var w := RunCleanup(v).(value := value, delay := delay, latest := callback);
    CleanupEmpties(v, changes, at);
    EffectStartsOne(w);
    assert |map[w.nextId := Timeout(w.now + w.delay, w.value)]| == 1;
  }

  lemma FireKeepsInv<T>(v: View<T>, id: nat, changes: nat, at: nat)
    requires Inv(v, changes, at)
    ensures Inv(Next(v, Fire(id)), changes, at)
  {
    if id in v.pending && v.pending[id].due <= v.now {
      var w := Next(v, Fire(id));
      assert w.pending == map[];
      assert LastSave(w) == Save(v.now, v.pending[id].value, v.latest);
    }
  }

  lemma UnmountKeepsInv<T>(v: View<T>, changes: nat, at: nat)
    requires Inv(v, changes, at)
    ensures Inv(Next(v, Unmount), changes, at) && Next(v, Unmount).pending == map[]
  {
    CleanupEmpties(v, changes, at);
    assert !v.mounted ==> v.pending == map[] && RunCleanup(v).pending == map[];
  }

  lemma NextKeepsInv<T>(v: View<T>, a: Action<T>, changes: nat, at: nat)
    requires Inv(v, changes, at)
    ensures Inv(Next(v, a), changes + (if Changes(v, a) then 1 else 0), if Changes(v, a) then v.now else at)
  {
    match a
    case Render(value, callback, delay) =>
      if Changes(v, a) { ChangeKeepsInv(v, value, callback, delay, changes, at); }
    case Advance(_) =>
    case Fire(id) => FireKeepsInv(v, id, changes, at);
    case Unmount => UnmountKeepsInv(v, changes, at);
  }

  lemma {:induction false} InvHolds<T>(s: Start<T>, run: seq<Action<T>>)
    ensures Inv(Exec(s, run), ChangeCount(s, run), ChangedAt(s, run))
  {
    if run != [] {
      hide Inv, Next, Changes;
      var before := run[..|run| - 1];
      InvHolds(s, before);
      NextKeepsInv(Exec(s, before), run[|run| - 1], ChangeCount(s, before), ChangedAt(s, before));
    }
  }

  lemma ExecAppend<T>(s: Start<T>, run: seq<Action<T>>, a: Action<T>)
    ensures Exec(s, run + [a]) == Next(Exec(s, run), a)
  {
    hide Next;
    assert (run + [a])[..|run|] == run;
  }

  /** A mounted hook takes what each render gives it; a changed value or delay starts the one timeout anew. */
  lemma RenderIsTaken<T>(s: Start<T>, run: seq<Action<T>>, value: T, callback: nat, delay: nat)
    requires Exec(s, run).mounted
    ensures var v := Exec(s, run); var w := Next(v, Render(value, callback, delay));
            && w.value == value && w.delay == delay && w.latest == callback && w.saves == v.saves && w.now == v.now
            && (value == v.value && delay == v.delay ==> w.pending == v.pending)
            && (value != v.value || delay != v.delay ==>
                  w.timer.Some? && w.pending == map[w.timer.value := Timeout(v.now + delay, value)])
  {
    hide Exec, ChangeCount, ChangedAt, RunCleanup, EffectBody;
    InvHolds(s, run);
    var v := Exec(s, run);
    CleanupEmpties(v, ChangeCount(s, run), ChangedAt(s, run));
    EffectStartsOne(RunCleanup(v).(value := value, delay := delay, latest := callback));
  }

  /** In every run at most one timeout is pending, and only while the hook is mounted. */
  lemma AtMostOnePending<T>(s: Start<T>, run: seq<Action<T>>)
    ensures |Exec(s, run).pending| <= 1
    ensures !Exec(s, run).mounted ==> Exec(s, run).pending == map[]
  {
    InvHolds(s, run);
  }

  /**
   * In every run, a timeout that fires saves the current value through the callback
   * of the latest render, and nothing had changed for at least the current delay.
   */
  lemma SaveIsCurrentAndSettled<T>(s: Start<T>, run: seq<Action<T>>, id: nat)
    requires var v := Exec(s, run); id in v.pending && v.pending[id].due <= v.now
    ensures var v := Exec(s, run);
            && Exec(s, run + [Fire(id)]).saves == v.saves + [Save(v.now, v.value, v.latest)]
            && v.mounted && ChangeCount(s, run) > 0 && ChangedAt(s, run) + v.delay <= v.now
  {
    hide Exec, ChangeCount, ChangedAt;
    InvHolds(s, run);
    ExecAppend(s, run, Fire(id));
  }

  /** In every run there is at most one save per change; the mount value alone saves nothing. */
  lemma OneSavePerChange<T>(s: Start<T>, run: seq<Action<T>>)
    ensures |Exec(s, run).saves| <= ChangeCount(s, run)
  {
    InvHolds(s, run);
  }

  /**
   * No edit is lost while the hook lives: after any change, either a timeout waits
   * with the current value, or the last save carried it, a full delay after the change.
   */
  lemma NoEditIsLost<T>(s: Start<T>, run: seq<Action<T>>)
    requires ChangeCount(s, run) > 0 && Exec(s, run).mounted
    ensures var v := Exec(s, run);
            || (exists id :: id in v.pending && v.pending[id] == Timeout(ChangedAt(s, run) + v.delay, v.value))
            || (v.saves != [] && LastSave(v).value == v.value && ChangedAt(s, run) + v.delay <= LastSave(v).time)
  {
    hide Exec, ChangeCount, ChangedAt;
    InvHolds(s, run);
    var v := Exec(s, run);
    if v.pending != map[] { assert v.timer.value in v.pending; }
  }

  ghost predicate FixedDelay<T>(s: Start<T>, run: seq<Action<T>>) {
    forall k :: 0 <= k < |run| && run[k].Render? ==> run[k].delay == s.delay
  }

  /** With a fixed delay, consecutive saves are at least that delay apart. */
  lemma {:induction false} SavesAreApart<T>(s: Start<T>, run: seq<Action<T>>)
    requires FixedDelay(s, run)
    ensures var v := Exec(s, run);
            v.delay == s.delay && forall i :: 0 < i < |v.saves| ==> v.saves[i - 1].time + s.delay <= v.saves[i].time
  {
    if run != [] {
      hide Exec, ChangeCount, ChangedAt, FixedDelay;
      var before, last := run[..|run| - 1], run[|run| - 1];
      assert run == before + [last];
      FixedDelayPrefix(s, run);
      SavesAreApart(s, before);
      InvHolds(s, before);
      ExecAppend(s, before, last);
      SavesStep(Exec(s, before), last, ChangeCount(s, before), ChangedAt(s, before));
    } else {
      StartSaves(s);
    }
  }

  lemma FixedDelayPrefix<T>(s: Start<T>, run: seq<Action<T>>)
    requires FixedDelay(s, run) && run != []
    ensures FixedDelay(s, run[..|run| - 1]) && (run[|run| - 1].Render? ==> run[|run| - 1].delay == s.delay)
  {
  }

  lemma StartSaves<T>(s: Start<T>)
    ensures Exec(s, []).saves == [] && Exec(s, []).delay == s.delay
  {
  }

  lemma SavesStep<T>(v: View<T>, a: Action<T>, changes: nat, at: nat)
    requires Inv(v, changes, at) && (a.Render? ==> a.delay == v.delay)
    ensures Next(v, a).delay == v.delay
    ensures Next(v, a).saves == v.saves ||
            exists x :: Next(v, a).saves == v.saves + [x] && (v.saves != [] ==> LastSave(v).time + v.delay <= x.time)
  {
  }

  /** Nothing fires after unmount. */
  lemma {:induction false} SilentAfterUnmount<T>(s: Start<T>, run: seq<Action<T>>, more: seq<Action<T>>)
    requires !Exec(s, run).mounted
    ensures !Exec(s, run + more).mounted && Exec(s, run + more).saves == Exec(s, run).saves
    decreases |more|
  {
    hide Exec, ChangeCount, ChangedAt;
    if more == [] {
      assert run + more == run;
    } else {
      var init, last := more[..|more| - 1], more[|more| - 1];
      assert run + more == (run + init) + [last];
      SilentAfterUnmount(s, run, init);
      AtMostOnePending(s, run + init);
      ExecAppend(s, run + init, last);
    }
  }

  /**
   * What unmounting drops: if nothing was pending, the last save already carried the
   * final value; if a timeout was pending, the final change is never saved.
   */
  lemma UnmountDropsThePendingSave<T>(s: Start<T>, run: seq<Action<T>>, more: seq<Action<T>>)
    requires Exec(s, run).mounted && ChangeCount(s, run) > 0
    ensures var v := Exec(s, run); var w := Exec(s, (run + [Unmount]) + more);
            && w.saves == v.saves
            && (v.pending == map[] ==> w.saves != [] && LastSave(w).value == v.value)
            && (v.pending != map[] ==> forall k :: 0 <= k < |w.saves| ==> w.saves[k].time <= ChangedAt(s, run))
  {
    hide Exec, ChangeCount, ChangedAt;
    InvHolds(s, run);
    ExecAppend(s, run, Unmount);
    UnmountSaves(Exec(s, run));
    SilentAfterUnmount(s, run + [Unmount], more);
    SavesInOrder(s, run);
  }

  lemma UnmountSaves<T>(v: View<T>)
    ensures Next(v, Unmount).saves == v.saves && !Next(v, Unmount).mounted
  {
  }

  lemma SavesGrow<T>(v: View<T>, a: Action<T>)
    ensures v.now <= Next(v, a).now
    ensures Next(v, a).saves == v.saves || exists x :: Next(v, a).saves == v.saves + [x] && x.time == v.now
  {
    if a.Fire? && a.id in v.pending && v.pending[a.id].due <= v.now {
      assert Next(v, a).saves == v.saves + [Save(v.now, v.pending[a.id].value, v.latest)];
    }
  }

  lemma {:induction false} SavesInOrder<T>(s: Start<T>, run: seq<Action<T>>)
    ensures var v := Exec(s, run);
            forall k :: 0 <= k < |v.saves| ==> v.saves[k].time <= LastSave(v).time <= v.now
  {
    hide Next;
    if run != [] {
      var before, last := run[..|run| - 1], run[|run| - 1];
      SavesInOrder(s, before);
      SavesGrow(Exec(s, before), last);
      assert Exec(s, before).saves != [] ==> LastSave(Exec(s, before)).time <= Exec(s, before).now;
    }
  }

  /** A change of the delay counts as a change: it saves the mount value although nobody edited it. */
  lemma DelayChangeSavesTheMountValue<T>(s: Start<T>, delay: nat, callback: nat)
    requires delay != s.delay
    ensures Exec(s, (([] + [Render(s.value, callback, delay)]) + [Advance(delay)]) + [Fire(0)]).saves
            == [Save(delay, s.value, callback)]
  {
    var start := Exec(s, []);
    var r1 := [] + [Render(s.value, callback, delay)];
    ExecAppend(s, [], Render(s.value, callback, delay));
    ExecAppend(s, r1, Advance(delay));
    ExecAppend(s, r1 + [Advance(delay)], Fire(0));
    hide Exec;
    assert RunCleanup(start).pending == map[];
    EffectStartsOne(RunCleanup(start).(value := s.value, delay := delay, latest := callback));
  }
}
