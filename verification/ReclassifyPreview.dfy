/**
 * The reclassify preview hook: an effect that fetches whenever its inputs or the
 * refetch counter change, with a per-request `cancelled` flag. Responses may come
 * in any order, and the `then`/`catch` and `finally` callbacks of one request are
 * separate steps between which anything else may happen.
 */
module ReclassifyPreview {
  import opened Common

  datatype Answer = Impact(dto: string) | Failure(message: string)

  /** How far the callbacks of a request have run. */
  datatype Phase = InFlight | Settled(answer: Answer) | Done(answer: Answer)

  datatype Request = Request(ticket: string, requestType: string, cancelled: bool, phase: Phase)

  datatype View = View(
    mounted: bool,
    ticket: Option<string>,
    requestType: Option<string>,
    nonce: nat,
    data: Option<string>,
    loading: bool,
    error: Option<string>,
    requests: seq<Request>,
    cleanup: Option<nat>)

  datatype Action =
    | ChangeInputs(ticket: Option<string>, requestType: Option<string>)
    | Refetch
    | Settle(request: nat, answer: Answer)
    | Finally(request: nat)
    | Unmount

  predicate Given(s: Option<string>) { s.Some? && s.value != "" }

  predicate Complete(v: View) { Given(v.ticket) && Given(v.requestType) }

  // ----- what each step does ---------------------------------------------------

  /** The cleanup returned by the last effect run. */
  function Cleaned(v: View): View {
    if v.cleanup.Some? && v.cleanup.value < |v.requests|
    then v.(requests := v.requests[v.cleanup.value := v.requests[v.cleanup.value].(cancelled := true)], cleanup := None)
    else v.(cleanup := None)
  }

  function EffectBody(v: View): View {
    if !Complete(v) then v.(data := None, error := None)
    else v.(loading := true, error := None,
            requests := v.requests + [Request(v.ticket.value, v.requestType.value, false, InFlight)],
            cleanup := Some(|v.requests|))
  }

  function Next(v: View, a: Action): View {
    match a
    case ChangeInputs(t, r) =>
      if !v.mounted || (t == v.ticket && r == v.requestType) then v
      else EffectBody(Cleaned(v).(ticket := t, requestType := r))
    case Refetch => if !v.mounted then v else EffectBody(Cleaned(v).(nonce := v.nonce + 1))
    case Settle(i, answer) =>
      if i >= |v.requests| || v.requests[i].phase != InFlight then v
      else
        var w := v.(requests := v.requests[i := v.requests[i].(phase := Settled(answer))]);
        if v.requests[i].cancelled then w
        else (match answer
              case Impact(dto) => w.(data := Some(dto))
              case Failure(message) => w.(error := Some(message)))
    case Finally(i) =>
      if i >= |v.requests| || !v.requests[i].phase.Settled? then v
      else
        var w := v.(requests := v.requests[i := v.requests[i].(phase := Done(v.requests[i].phase.answer))]);
        if v.requests[i].cancelled then w else w.(loading := false)
    case Unmount => Cleaned(v).(mounted := false)
  }

  function Blank(t: Option<string>, r: Option<string>): View { View(true, t, r, 0, None, false, None, [], None) }

  class PreviewHook {
    var mounted: bool
    var ticket: Option<string>
    var requestType: Option<string>
    var nonce: nat
    var data: Option<string>
    var loading: bool
    var error: Option<string>
    var requests: seq<Request>
    var cleanup: Option<nat>

    ghost function Now(): View
      reads this
    {
      View(mounted, ticket, requestType, nonce, data, loading, error, requests, cleanup)
    }

    constructor (t: Option<string>, r: Option<string>)
      ensures Now() == EffectBody(Blank(t, r))
    {
      mounted, ticket, requestType, nonce := true, t, r, 0;
      data, loading, error := None, false, None;
      requests, cleanup := [], None;
      new;
      Effect();
    }

    method Effect()
      modifies this
      ensures Now() == EffectBody(old(Now()))
    {
      if !Given(ticket) || !Given(requestType) {
        data, error := None, None;
        return;
      }
      loading, error := true, None;
      cleanup := Some(|requests|);
      requests := requests + [Request(ticket.value, requestType.value, false, InFlight)];
    }

    method RunCleanup()
      modifies this
      ensures Now() == Cleaned(old(Now()))
    {
      if cleanup.Some? && cleanup.value < |requests| {
        requests := requests[cleanup.value := requests[cleanup.value].(cancelled := true)];
      }
      cleanup := None;
    }

    method SetInputs(t: Option<string>, r: Option<string>)
      modifies this
      ensures Now() == Next(old(Now()), ChangeInputs(t, r))
    {
      if !mounted || (t == ticket && r == requestType) { return; }
      RunCleanup();
      ticket, requestType := t, r;
      Effect();
    }

    method Refresh()
      modifies this
      ensures Now() == Next(old(Now()), Refetch)
    {
      if !mounted { return; }
      RunCleanup();
      nonce := nonce + 1;
      Effect();
    }

    method OnSettled(i: nat, answer: Answer)
      requires i < |requests| && requests[i].phase == InFlight
      modifies this
      ensures Now() == Next(old(Now()), Settle(i, answer))
    {
      var cancelled := requests[i].cancelled;
      requests := requests[i := requests[i].(phase := Settled(answer))];
      if !cancelled {
        match answer
        case Impact(dto) => data := Some(dto);
        case Failure(message) => error := Some(message);
      }
    }

    method OnFinally(i: nat)
      requires i < |requests| && requests[i].phase.Settled?
      modifies this
      ensures Now() == Next(old(Now()), Finally(i))
    {
      var cancelled := requests[i].cancelled;
      requests := requests[i := requests[i].(phase := Done(requests[i].phase.answer))];
      if !cancelled { loading := false; }
    }

    method Dispose()
      modifies this
      ensures Now() == Next(old(Now()), Unmount)
    {
      RunCleanup();
      mounted := false;
    }
  }

  // ----- runs ------------------------------------------------------------------

  function Exec(t: Option<string>, r: Option<string>, run: seq<Action>): View {
    if run == [] then EffectBody(Blank(t, r)) else Next(Exec(t, r, run[..|run| - 1]), run[|run| - 1])
  }

  function Last(v: View): Request
    requires v.requests != []
  {
    v.requests[|v.requests| - 1]
  }

  /** The latest-started request still speaks for the hook. */
  predicate Live(v: View) { v.requests != [] && !Last(v).cancelled }

  /** What the state shows while the request in phase `p` speaks for it. */
  ghost predicate Shows(v: View, p: Phase) {
    match p
    case InFlight => v.loading && v.error.None?
    case Settled(Impact(dto)) => v.loading && v.error.None? && v.data == Some(dto)
    case Settled(Failure(message)) => v.loading && v.error == Some(message)
    case Done(Impact(dto)) => !v.loading && v.error.None? && v.data == Some(dto)
    case Done(Failure(message)) => !v.loading && v.error == Some(message)
  }

  ghost predicate Inv(v: View) {
    && (forall i :: 0 <= i < |v.requests| - 1 ==> v.requests[i].cancelled)
    && (v.cleanup.Some? ==> v.requests != [] && v.cleanup.value == |v.requests| - 1)
    && (v.cleanup.Some? <==> Live(v))
    && (v.cleanup.Some? ==> v.mounted)
    && (v.mounted ==> (v.cleanup.Some? <==> Complete(v)))
    && (Live(v) ==> Shows(v, Last(v).phase) && v.ticket == Some(Last(v).ticket) && v.requestType == Some(Last(v).requestType))
    && (v.mounted && !Live(v) ==> v.data.None? && v.error.None?)
  }

  lemma EffectKeepsInv(v: View, w: View)
    requires Inv(v) && v.mounted && w == Cleaned(v).(ticket := w.ticket, requestType := w.requestType, nonce := w.nonce)
    ensures Inv(EffectBody(w))
  {
  }

  lemma NextKeepsInv(v: View, a: Action)
    requires Inv(v)
    ensures Inv(Next(v, a))
  {
    match a
    case ChangeInputs(t, r) =>
      if v.mounted { EffectKeepsInv(v, Cleaned(v).(ticket := t, requestType := r)); }
    case Refetch => if v.mounted { EffectKeepsInv(v, Cleaned(v).(nonce := v.nonce + 1)); }
    case _ =>
  }

  lemma {:induction false} InvHolds(t: Option<string>, r: Option<string>, run: seq<Action>)
    ensures Inv(Exec(t, r, run))
  {
    if run != [] {
      hide Inv, Next;
      InvHolds(t, r, run[..|run| - 1]);
      NextKeepsInv(Exec(t, r, run[..|run| - 1]), run[|run| - 1]);
    }
  }

  /** The latest request is one more than before, live, in flight, and asks for these inputs. */
  ghost predicate Fetches(v: View, w: View, t: Option<string>, r: Option<string>) {
    && |w.requests| == |v.requests| + 1 && w.loading && w.error.None?
    && Last(w) == Request(if t.Some? then t.value else "", if r.Some? then r.value else "", false, InFlight)
  }

  lemma ChangeFetches(v: View, t: Option<string>, r: Option<string>)
    requires Inv(v) && v.mounted
    ensures var w := Next(v, ChangeInputs(t, r));
            && w.ticket == t && w.requestType == r
            && (t == v.ticket && r == v.requestType ==> w == v)
            && (t != v.ticket || r != v.requestType ==>
                  if t.Some? && t.value != "" && r.Some? && r.value != "" then Fetches(v, w, t, r)
                  else |w.requests| == |v.requests| && !Live(w) && w.data.None? && w.error.None?)
  {
  }

  lemma RefetchFetches(v: View)
    requires Inv(v) && v.mounted
    ensures var u := Next(v, Refetch);
            && u.ticket == v.ticket && u.requestType == v.requestType && u.nonce == v.nonce + 1
            && (if v.ticket.Some? && v.ticket.value != "" && v.requestType.Some? && v.requestType.value != ""
                then Fetches(v, u, v.ticket, v.requestType)
                else |u.requests| == |v.requests| && u.data.None? && u.error.None?)
  {
  }

  /**
   * When the hook fetches: a mounted hook takes every new pair of inputs; it starts a
   * request for it exactly when both are given, and otherwise shows nothing and
   * cancels the old one. A refetch starts a new request for the inputs it has.
   */
  lemma FetchesExactly(t0: Option<string>, r0: Option<string>, run: seq<Action>, t: Option<string>, r: Option<string>)
    requires Exec(t0, r0, run).mounted
    ensures var v := Exec(t0, r0, run); var w := Next(v, ChangeInputs(t, r));
            && w.ticket == t && w.requestType == r
            && (t == v.ticket && r == v.requestType ==> w == v)
            && (t != v.ticket || r != v.requestType ==>
                  if t.Some? && t.value != "" && r.Some? && r.value != "" then Fetches(v, w, t, r)
                  else |w.requests| == |v.requests| && !Live(w) && w.data.None? && w.error.None?)
    ensures var v := Exec(t0, r0, run); var u := Next(v, Refetch);
            && u.ticket == v.ticket && u.requestType == v.requestType && u.nonce == v.nonce + 1
            && (if v.ticket.Some? && v.ticket.value != "" && v.requestType.Some? && v.requestType.value != ""
                then Fetches(v, u, v.ticket, v.requestType)
                else |u.requests| == |v.requests| && u.data.None? && u.error.None?)
  {
    hide Exec, Next, Inv, Fetches, Live;
    InvHolds(t0, r0, run);
    ChangeFetches(Exec(t0, r0, run), t, r);
    RefetchFetches(Exec(t0, r0, run));
  }

  /** A hook mounts with nothing to show; it fetches at once, and is loading, exactly when both inputs are given. */
  lemma MountFetchesExactly(t: Option<string>, r: Option<string>)
    ensures var v := Exec(t, r, []);
            && v.mounted && v.data.None? && v.error.None?
            && (v.loading <==> t.Some? && t.value != "" && r.Some? && r.value != "")
            && |v.requests| == (if v.loading then 1 else 0)
            && (v.loading ==> v.requests[0] == Request(t.value, r.value, false, InFlight))
  {
  }

  /** An answer to the live request is taken as it is; its `finally` turns loading off. */
  lemma LiveAnswerIsTaken(t0: Option<string>, r0: Option<string>, run: seq<Action>, answer: Answer)
    requires var v := Exec(t0, r0, run); Live(v) && Last(v).phase == InFlight
    ensures var v := Exec(t0, r0, run); var i := |v.requests| - 1; var w := Next(v, Settle(i, answer));
            && (answer.Impact? ==> w.data == Some(answer.dto) && w.error.None? && w.loading)
            && (answer.Failure? ==> w.error == Some(answer.message) && w.data == v.data && w.loading)
            && !Next(w, Finally(i)).loading
  {
    hide Exec;
    InvHolds(t0, r0, run);
  }

  /** In every run, the callbacks of any request but the latest-started one change nothing the hook returns. */
  lemma SupersededNeverSpeaks(t: Option<string>, r: Option<string>, run: seq<Action>, i: nat, a: Action)
    requires i + 1 < |Exec(t, r, run).requests|
    requires a == Finally(i) || (a.Settle? && a.request == i)
    ensures var v := Exec(t, r, run); var w := Next(v, a);
            w.data == v.data && w.loading == v.loading && w.error == v.error
  {
    InvHolds(t, r, run);
  }

  /** In every run, a request that still speaks and has not finished means `loading`. */
  lemma LiveMeansLoading(t: Option<string>, r: Option<string>, run: seq<Action>)
    ensures var v := Exec(t, r, run); Live(v) ==> (v.loading <==> !Last(v).phase.Done?)
  {
    InvHolds(t, r, run);
  }

  /**
   * In every run, what a mounted hook shows as settled is the response of the
   * latest-started request, made for the inputs it has now.
   */
  lemma ShownIsTheLatest(t: Option<string>, r: Option<string>, run: seq<Action>)
    ensures var v := Exec(t, r, run);
            v.mounted && !v.loading && v.error.None? && v.data.Some? ==>
              && v.requests != [] && Last(v).phase == Done(Impact(v.data.value))
              && v.ticket == Some(Last(v).ticket) && v.requestType == Some(Last(v).requestType)
  {
    InvHolds(t, r, run);
  }

  predicate KeepsIncomplete(a: Action) {
    a.ChangeInputs? ==> !(Given(a.ticket) && Given(a.requestType))
  }

  lemma IncompleteKeepsLoading(v: View, a: Action)
    requires Inv(v) && !Live(v) && !Complete(v) && KeepsIncomplete(a)
    ensures var w := Next(v, a); w.loading == v.loading && !Live(w) && !Complete(w)
  {
  }

  lemma {:induction false} IncompleteRun(t: Option<string>, r: Option<string>, run: seq<Action>, more: seq<Action>)
    requires !Live(Exec(t, r, run)) && !Complete(Exec(t, r, run))
    requires forall k :: 0 <= k < |more| ==> KeepsIncomplete(more[k])
    ensures var w := Exec(t, r, run + more); w.loading == Exec(t, r, run).loading && !Live(w) && !Complete(w)
    decreases |more|
  {
    hide Exec, Next;
    if more == [] {
      assert run + more == run;
    } else {
      var init, last := more[..|more| - 1], more[|more| - 1];
      assert run + more == (run + init) + [last];
      IncompleteRun(t, r, run, init);
      InvHolds(t, r, run + init);
      IncompleteKeepsLoading(Exec(t, r, run + init), last);
      ExecAppend(t, r, run + init, last);
    }
  }

  lemma ExecAppend(t: Option<string>, r: Option<string>, run: seq<Action>, a: Action)
    ensures Exec(t, r, run + [a]) == Next(Exec(t, r, run), a)
  {
    hide Next;
    assert (run + [a])[..|run|] == run;
  }

  /**
   * Emptying the inputs leaves `loading` on exactly when the request it cancels had
   * not finished, and then no response ever turns it off: it stays on until the
   * inputs are complete again.
   */
  lemma LoadingSticksExactly(t: Option<string>, r: Option<string>, run: seq<Action>, empty: Action, more: seq<Action>)
    requires Live(Exec(t, r, run)) && empty.ChangeInputs? && KeepsIncomplete(empty)
    requires forall k :: 0 <= k < |more| ==> KeepsIncomplete(more[k])
    ensures Exec(t, r, (run + [empty]) + more).loading <==> !Last(Exec(t, r, run)).phase.Done?
  {
    hide Exec;
    InvHolds(t, r, run);
    ExecAppend(t, r, run, empty);
    IncompleteRun(t, r, run + [empty], more);
  }
}
