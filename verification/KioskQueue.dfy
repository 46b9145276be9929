/**
 * The kiosk's offline queue: an append-only store with auto-increment keys that
 * is drained by posting every stored check-in again. `OfflineQueue` is the store
 * with its operations; the second half lets any number of flushes overlap.
 */
module KioskQueue {

  datatype Kind = Qr | Name | Walkup

  datatype Item = Item(kind: Kind, capturedAt: string, payload: string)

  datatype Row = Row(id: nat, item: Item)

  /** How one POST ends. */
  datatype Answer = NetworkError | Status(code: int)

  predicate IsOk(a: Answer) { a.Status? && 200 <= a.code <= 299 }

  /** 4xx: the server will never take the item. */
  predicate IsRejected(a: Answer) { a.Status? && 400 <= a.code < 500 }

  /** An answer after which the item is removed. */
  predicate IsFinal(a: Answer) { IsOk(a) || IsRejected(a) }

  /** The final answers are the statuses from 200 to 299 and from 400 to 499. */
  lemma FinalRange(a: Answer)
    ensures IsFinal(a) <==> a.Status? && (200 <= a.code <= 299 || 400 <= a.code <= 499)
  {
  }

  /** What the network and the store do during one flush, attempt by attempt. */
  datatype Env = Env(answer: nat -> Answer, deleteOk: nat -> bool, listOk: bool, recountOk: bool)

  ghost predicate Ascending(rows: seq<Row>) {
    forall i, j :: 0 <= i < j < |rows| ==> rows[i].id < rows[j].id
  }

  function Remove(rows: seq<Row>, id: nat): (r: seq<Row>)
    ensures |r| <= |rows|
    ensures forall x :: x in r <==> x in rows && x.id != id
  {
    if rows == [] then []
    else if rows[0].id == id then Remove(rows[1..], id)
    else [rows[0]] + Remove(rows[1..], id)
  }

  /** What a flush does to the store, and what it counts. */
  datatype Drained = Drained(
    rows: seq<Row>,        // the store afterwards
    attempted: nat,        // items posted, counted from the front of the snapshot
    answered: seq<Row>,    // items with a final answer, in posting order
    flushed: nat,          // 2xx answers
    dropped: nat,          // 4xx answers
    undeleted: nat)        // final answers whose delete failed

  /** The loop over `items` from index `i` on. */
  function Drain(rows: seq<Row>, items: seq<Row>, env: Env, i: nat): Drained
    requires i <= |items|
    decreases |items| - i
  {
    if i == |items| then Drained(rows, 0, [], 0, 0, 0)
    else
      var a := env.answer(i);
      if a.NetworkError? then Drained(rows, 1, [], 0, 0, 0)
      else if !IsFinal(a) then
        var d := Drain(rows, items, env, i + 1);
        d.(attempted := d.attempted + 1)
      else
        var d := Drain(if env.deleteOk(i) then Remove(rows, items[i].id) else rows, items, env, i + 1);
        Drained(d.rows, d.attempted + 1, [items[i]] + d.answered,
                d.flushed + if IsOk(a) then 1 else 0,
                d.dropped + if IsOk(a) then 0 else 1,
                d.undeleted + if env.deleteOk(i) then 0 else 1)
  }

  /** The device's store. */
  class OfflineQueue {
    var rows: seq<Row>
    var nextId: nat

    ghost predicate Valid()
      reads this
    {
      Ascending(rows) && forall i :: 0 <= i < |rows| ==> rows[i].id < nextId
    }

    constructor ()
      ensures Valid() && rows == [] && nextId == 1
    {
      rows, nextId := [], 1;
    }

    /** `enqueueCheckin`: a failing store swallows the item. */
    method EnqueueCheckin(item: Item, storeOk: bool)
      requires Valid()
      modifies this
      ensures Valid()
      ensures storeOk ==> rows == old(rows) + [Row(old(nextId), item)] && nextId == old(nextId) + 1
      ensures !storeOk ==> rows == old(rows) && nextId == old(nextId)
    {
      if storeOk {
        rows := rows + [Row(nextId, item)];
        nextId := nextId + 1;
      }
    }

    /** `listQueued`: everything in key order, or nothing when the store cannot be read. */
    method ListQueued(storeOk: bool) returns (items: seq<Row>)
      requires Valid()
      ensures items == if storeOk then rows else []
    {
      items := if storeOk then rows else [];
    }

    /** `removeQueued`: a failing delete is only logged. */
    method RemoveQueued(id: nat, storeOk: bool)
      requires Valid()
      modifies this`rows
      ensures Valid()
      ensures rows == if storeOk then Remove(old(rows), id) else old(rows)
    {
      if storeOk {
        RemoveKeepsOrder(rows, id);
        rows := Remove(rows, id);
      }
    }

    /** `flushQueue`. */
    method FlushQueue(hasToken: bool, env: Env) returns (flushed: nat, remaining: nat)
      requires Valid()
      modifies this`rows
      ensures Valid()
      ensures !hasToken || !env.listOk || old(rows) == [] ==> rows == old(rows) && flushed == 0 && remaining == 0
      ensures hasToken && env.listOk && old(rows) != [] ==>
                var d := Drain(old(rows), old(rows), env, 0);
                && rows == d.rows && flushed == d.flushed
                && remaining == if env.recountOk then |rows| else 0
    {
      flushed := 0;
      if !hasToken { return 0, 0; }
      var items := ListQueued(env.listOk);
      if |items| == 0 { return 0, 0; }
      ghost var total := Drain(rows, items, env, 0);
      for i := 0 to |items|
        invariant Valid()
        invariant total.rows == Drain(rows, items, env, i).rows
        invariant total.flushed == flushed + Drain(rows, items, env, i).flushed
      {
        var a := env.answer(i);
        if a.NetworkError? { break; }
        if IsOk(a) {
          RemoveQueued(items[i].id, env.deleteOk(i));
          flushed := flushed + 1;
        } else if IsRejected(a) {
          RemoveQueued(items[i].id, env.deleteOk(i));
        }
      }
      var left := ListQueued(env.recountOk);
      remaining := |left|;
    }
  }

  lemma AscendingParts(rows: seq<Row>)
    requires rows != []
    ensures Ascending(rows) <==> Ascending(rows[1..]) && forall i :: 0 <= i < |rows[1..]| ==> rows[0].id < rows[1..][i].id
  {
    assert forall i :: 0 < i < |rows| ==> rows[i] == rows[1..][i - 1];
  }

  lemma {:induction false} RemoveKeepsOrder(rows: seq<Row>, id: nat)
    requires Ascending(rows)
    ensures Ascending(Remove(rows, id))
  {
    if rows != [] {
      AscendingParts(rows);
      RemoveKeepsOrder(rows[1..], id);
      var r := Remove(rows[1..], id);
      assert forall i :: 0 <= i < |r| ==> r[i] in rows[1..];
      assert ([rows[0]] + r)[1..] == r;
      AscendingParts([rows[0]] + r);
      hide Ascending;
    }
  }

  // ---------------------------------------------------------------------
  // One flush
  // ---------------------------------------------------------------------

  lemma {:induction false} RemoveAppend(xs: seq<Row>, ys: seq<Row>, id: nat)
    ensures Remove(xs + ys, id) == Remove(xs, id) + Remove(ys, id)
  {
    if xs == [] {
      assert xs + ys == ys;
    } else {
      assert (xs + ys)[1..] == xs[1..] + ys;
      RemoveAppend(xs[1..], ys, id);
    }
  }

  lemma RemoveSingle(x: Row)
    ensures Remove([x], x.id) == []
  {
  }

  ghost predicate Without(rows: seq<Row>, id: nat) { forall i :: 0 <= i < |rows| ==> rows[i].id != id }

  lemma RemoveMiddle(before: seq<Row>, x: Row, after: seq<Row>)
    requires Without(before, x.id) && Without(after, x.id)
    ensures Remove(before + ([x] + after), x.id) == before + after
  {
    hide Remove, Without;
    RemoveAppend(before, [x] + after, x.id);
    RemoveAppend([x], after, x.id);
    RemoveSingle(x);
    RemoveAbsent(before, x.id);
    RemoveAbsent(after, x.id);
    assert [] + after == after;
  }

  lemma OthersDiffer(rows: seq<Row>, k: nat)
    requires Ascending(rows) && k < |rows|
    ensures Without(rows[..k], rows[k].id) && Without(rows[k + 1..], rows[k].id)
  {
  }

  lemma RemoveOne(rows: seq<Row>, k: nat)
    requires Ascending(rows) && k < |rows|
    ensures Remove(rows, rows[k].id) == rows[..k] + rows[k + 1..]
  {
    hide Remove, Without, Ascending;
    OthersDiffer(rows, k);
    RemoveMiddle(rows[..k], rows[k], rows[k + 1..]);
    assert rows == rows[..k] + ([rows[k]] + rows[k + 1..]);
  }

  lemma {:induction false} RemoveAbsent(rows: seq<Row>, id: nat)
    requires Without(rows, id)
    ensures Remove(rows, id) == rows
    decreases |rows|
  {
    if rows != [] {
      RemoveAbsent(rows[1..], id);
      assert [rows[0]] + rows[1..] == rows;
    }
  }

  /** Every item still to be posted is in the store. */
  ghost predicate Holds(rows: seq<Row>, items: seq<Row>, i: nat) {
    forall k :: i <= k < |items| ==> items[k] in rows
  }

  lemma HoldsAfterRemove(rows: seq<Row>, items: seq<Row>, i: nat)
    requires Ascending(rows) && Ascending(items) && i < |items| && Holds(rows, items, i)
    ensures Holds(Remove(rows, items[i].id), items, i + 1)
    ensures Ascending(Remove(rows, items[i].id)) && |Remove(rows, items[i].id)| == |rows| - 1
  {
    RemoveKeepsOrder(rows, items[i].id);
    var k :| 0 <= k < |rows| && rows[k] == items[i];
    RemoveOne(rows, k);
  }

  /**
   * Main result 1. Nothing is lost or invented by a flush: final answers and the
   * items still queued add up to the items queued before, corrected exactly by the
   * deletes that failed.
   */
  lemma {:induction false} FlushConserves(rows: seq<Row>, items: seq<Row>, env: Env, i: nat)
    requires i <= |items| && Ascending(rows) && Ascending(items) && Holds(rows, items, i)
    ensures var d := Drain(rows, items, env, i);
            |d.rows| + d.flushed + d.dropped == |rows| + d.undeleted
    decreases |items| - i
  {
    if i < |items| {
      HoldsAfterRemove(rows, items, i);
      FlushConserves(rows, items, env, i + 1);
      FlushConserves(Remove(rows, items[i].id), items, env, i + 1);
    }
  }

  /** The attempts, among `n` from `i` on, answered with a status in this range. */
  function AnsweredBetween(env: Env, i: nat, n: nat, lo: int, hi: int): set<nat> {
    set k: nat | i <= k < i + n && env.answer(k).Status? && lo <= env.answer(k).code <= hi
  }

  lemma OneMoreAttempt(env: Env, i: nat, n: nat, lo: int, hi: int)
    ensures |AnsweredBetween(env, i, n + 1, lo, hi)| ==
            |AnsweredBetween(env, i + 1, n, lo, hi)| + if env.answer(i).Status? && lo <= env.answer(i).code <= hi then 1 else 0
  {
    var rest := AnsweredBetween(env, i + 1, n, lo, hi);
    if env.answer(i).Status? && lo <= env.answer(i).code <= hi {
      assert AnsweredBetween(env, i, n + 1, lo, hi) == rest + {i};
    } else {
      assert AnsweredBetween(env, i, n + 1, lo, hi) == rest;
    }
  }

  /** What a flush counts: `flushed` are the answers from 200 to 299, `dropped` those from 400 to 499. */
  lemma {:induction false} FlushCounts(rows: seq<Row>, items: seq<Row>, env: Env, i: nat)
    requires i <= |items|
    ensures var d := Drain(rows, items, env, i);
            && d.flushed == |AnsweredBetween(env, i, d.attempted, 200, 299)|
            && d.dropped == |AnsweredBetween(env, i, d.attempted, 400, 499)|
    decreases |items| - i
  {
    if i < |items| {
      hide AnsweredBetween;
      var next := AfterAnswer(rows, items, env, i);
      FlushCounts(next, items, env, i + 1);
      var n := Drain(rows, items, env, i).attempted;
      OneMoreAttempt(env, i, n - 1, 200, 299);
      OneMoreAttempt(env, i, n - 1, 400, 499);
      if env.answer(i).NetworkError? { NoAttempts(env, i + 1); }
    } else {
      NoAttempts(env, i);
    }
  }

  lemma NoAttempts(env: Env, i: nat)
    ensures AnsweredBetween(env, i, 0, 200, 299) == {} && AnsweredBetween(env, i, 0, 400, 499) == {}
  {
  }

  /** A flush posts a prefix of its snapshot and stops exactly at the first network failure. */
  lemma {:induction false} FlushAttemptsAPrefix(rows: seq<Row>, items: seq<Row>, env: Env, i: nat)
    requires i <= |items|
    ensures var n := Drain(rows, items, env, i).attempted;
            && n <= |items| - i
            && (forall k :: i <= k < i + n - 1 ==> env.answer(k).Status?)
            && (n < |items| - i ==> n > 0 && env.answer(i + n - 1).NetworkError?)
    decreases |items| - i
  {
    if i < |items| {
      var next := if IsFinal(env.answer(i)) && env.deleteOk(i) then Remove(rows, items[i].id) else rows;
      FlushAttemptsAPrefix(next, items, env, i + 1);
    }
  }

  /** Exactly the posted items with a final answer and a working delete leave the store. */
  lemma {:induction false} FlushRemovesAnswered(rows: seq<Row>, items: seq<Row>, env: Env, i: nat, x: Row)
    requires i <= |items| && Ascending(items)
    ensures var d := Drain(rows, items, env, i);
            x in d.rows <==>
            x in rows && !exists k :: i <= k < i + d.attempted && k < |items| && items[k].id == x.id && IsFinal(env.answer(k)) && env.deleteOk(k)
    decreases |items| - i
  {
    if i < |items| {
      var gone := IsFinal(env.answer(i)) && env.deleteOk(i);
      var next := if gone then Remove(rows, items[i].id) else rows;
      FlushRemovesAnswered(next, items, env, i + 1, x);
      var d, e := Drain(rows, items, env, i), Drain(next, items, env, i + 1);
      if env.answer(i).Status? {
        assert d.rows == e.rows && d.attempted == e.attempted + 1;
        var P := k => i <= k < i + d.attempted && k < |items| && items[k].id == x.id && IsFinal(env.answer(k)) && env.deleteOk(k);
        var Q := k => i + 1 <= k < i + 1 + e.attempted && k < |items| && items[k].id == x.id && IsFinal(env.answer(k)) && env.deleteOk(k);
        assert forall k :: P(k) <==> Q(k) || (k == i && gone && items[i].id == x.id);
      }
    }
  }

  /** No server error is followed by a final answer. */
  ghost predicate NoOvertaking(items: seq<Row>, env: Env, i: nat, n: nat) {
    forall j, k :: i <= j < k < i + n && k < |items| && env.answer(j).Status? && !IsFinal(env.answer(j)) ==> !IsFinal(env.answer(k))
  }

  lemma {:induction false} AnsweredAreItems(rows: seq<Row>, items: seq<Row>, env: Env, i: nat)
    requires i <= |items|
    ensures var d := Drain(rows, items, env, i);
            && (forall x :: x in d.answered ==> x in items[i..])
            && (d.answered == [] <==> forall k :: i <= k < i + d.attempted && k < |items| ==> !IsFinal(env.answer(k)))
    decreases |items| - i
  {
    if i < |items| {
      var next := if IsFinal(env.answer(i)) && env.deleteOk(i) then Remove(rows, items[i].id) else rows;
      AnsweredAreItems(next, items, env, i + 1);
      assert items[i..] == [items[i]] + items[i + 1..];
    }
  }

  /**
   * Main result 2. Within a flush the answered items are a prefix of the queue if
   * and only if no server error was followed by a final answer.
   */
  lemma {:induction false} AnsweredInOrder(rows: seq<Row>, items: seq<Row>, env: Env, i: nat)
    requires i <= |items| && Ascending(items)
    ensures var d := Drain(rows, items, env, i);
            d.answered <= items[i..] <==> NoOvertaking(items, env, i, d.attempted)
    decreases |items| - i
  {
    DrainFront(rows, items, env, i);
    hide Drain, NoOvertaking, Ascending, Remove, IsFinal;
    if i == |items| || env.answer(i).NetworkError? {
      ShortOrder(items, env, i);
    } else {
      var next := AfterAnswer(rows, items, env, i);
      var e := Drain(next, items, env, i + 1);
      AnsweredInOrder(next, items, env, i + 1);
      AnsweredAreItems(next, items, env, i + 1);
      if IsFinal(env.answer(i)) {
        ExtendOrder(items, env, i, e.attempted);
        PrefixCons(items[i], e.answered, items[i + 1..]);
        assert items[i..] == [items[i]] + items[i + 1..];
      } else {
        OvertakenOrder(items, env, i, e.attempted, e.answered);
      }
    }
  }

  /** The store after the answer to item `i`. */
  function AfterAnswer(rows: seq<Row>, items: seq<Row>, env: Env, i: nat): seq<Row>
    requires i < |items|
  {
    if IsFinal(env.answer(i)) && env.deleteOk(i) then Remove(rows, items[i].id) else rows
  }

  lemma DrainFront(rows: seq<Row>, items: seq<Row>, env: Env, i: nat)
    requires i <= |items|
    ensures var d := Drain(rows, items, env, i);
            && (i == |items| ==> d.attempted == 0 && d.answered == [] && d.rows == rows)
            && (i < |items| && env.answer(i).NetworkError? ==> d.attempted == 1 && d.answered == [])
            && (i < |items| && env.answer(i).Status? ==>
                  var e := Drain(AfterAnswer(rows, items, env, i), items, env, i + 1);
                  d.rows == e.rows && d.attempted == e.attempted + 1 && d.answered == (if IsFinal(env.answer(i)) then [items[i]] else []) + e.answered)
  {
  }

  lemma ShortOrder(items: seq<Row>, env: Env, i: nat)
    ensures NoOvertaking(items, env, i, 0) && NoOvertaking(items, env, i, 1)
  {
  }

  lemma PrefixCons(x: Row, xs: seq<Row>, ys: seq<Row>)
    ensures [x] + xs <= [x] + ys <==> xs <= ys
  {
    var a, b := [x] + xs, [x] + ys;
    assert xs == a[1..] && ys == b[1..];
    if a <= b { assert a == b[..|a|]; assert xs == b[1..][..|xs|]; }
  }

  lemma ExtendOrder(items: seq<Row>, env: Env, i: nat, n: nat)
    requires i < |items| && IsFinal(env.answer(i))
    ensures NoOvertaking(items, env, i, n + 1) <==> NoOvertaking(items, env, i + 1, n)
  {
  }

  lemma OvertakenOrder(items: seq<Row>, env: Env, i: nat, n: nat, answered: seq<Row>)
    requires i < |items| && Ascending(items) && env.answer(i).Status? && !IsFinal(env.answer(i))
    requires forall x :: x in answered ==> x in items[i + 1..]
    requires answered == [] <==> forall k :: i + 1 <= k < i + 1 + n && k < |items| ==> !IsFinal(env.answer(k))
    ensures answered <= items[i..] <==> NoOvertaking(items, env, i, n + 1)
  {
    if answered == [] {
      assert NoOvertaking(items, env, i, n + 1);
    } else {
      var k :| i + 1 <= k < i + 1 + n && k < |items| && IsFinal(env.answer(k));
      assert !NoOvertaking(items, env, i, n + 1);
      assert answered[0] in answered;
      assert answered[0] in items[i + 1..];
      var m :| i + 1 <= m < |items| && items[m] == answered[0];
      assert items[i..][0] == items[i];
    }
  }

  // ---------------------------------------------------------------------
  // Sequential flushes
  // ---------------------------------------------------------------------

  datatype Op = Enqueue(item: Item) | Flush(hasToken: bool, env: Env)

  /** The store with its history: everything ever stored, and the final answers in order. */
  datatype Log = Log(rows: seq<Row>, nextId: nat, stored: seq<Row>, answered: seq<Row>)

  function Apply(l: Log, op: Op): Log {
    match op
    case Enqueue(item) =>
      var r := Row(l.nextId, item);
      Log(l.rows + [r], l.nextId + 1, l.stored + [r], l.answered)
    case Flush(hasToken, env) =>
      if !hasToken || !env.listOk then l
      else
        var d := Drain(l.rows, l.rows, env, 0);
        l.(rows := d.rows, answered := l.answered + d.answered)
  }

  function ApplyAll(l: Log, ops: seq<Op>): Log
    decreases |ops|
  {
    if ops == [] then l else ApplyAll(Apply(l, ops[0]), ops[1..])
  }

  /** No server error and no failing delete. */
  ghost predicate CleanOp(op: Op) {
    op.Flush? ==> forall k: nat :: op.env.deleteOk(k) && (op.env.answer(k).NetworkError? || IsFinal(op.env.answer(k)))
  }

  ghost predicate InOrder(l: Log) {
    && l.answered + l.rows == l.stored
    && Ascending(l.stored) && forall i :: 0 <= i < |l.stored| ==> l.stored[i].id < l.nextId
  }

  lemma {:induction false} CleanDrain(items: seq<Row>, env: Env, i: nat)
    requires i <= |items| && Ascending(items) && CleanOp(Flush(true, env))
    ensures var d := Drain(items[i..], items, env, i); d.answered + d.rows == items[i..]
    decreases |items| - i
  {
    hide Remove, Ascending;
    if i < |items| && env.answer(i).Status? {
      RemoveFirst(items, i);
      CleanDrain(items, env, i + 1);
      assert items[i..] == [items[i]] + items[i + 1..];
    }
  }

  lemma RemoveFirst(items: seq<Row>, i: nat)
    requires i < |items| && Ascending(items)
    ensures Remove(items[i..], items[i].id) == items[i + 1..]
  {
    var rest := items[i..];
    RemoveOne(rest, 0);
    assert rest[..0] + rest[1..] == items[i + 1..];
  }

  lemma EnqueueInOrder(l: Log, item: Item)
    requires InOrder(l)
    ensures InOrder(Apply(l, Enqueue(item)))
  {
    var r := Row(l.nextId, item);
    assert l.answered + (l.rows + [r]) == (l.answered + l.rows) + [r];
  }

  lemma RowsAscend(l: Log)
    requires InOrder(l)
    ensures Ascending(l.rows)
  {
    assert forall i :: 0 <= i < |l.rows| ==> l.rows[i] == l.stored[|l.answered| + i];
  }

  lemma FlushInOrder(l: Log, hasToken: bool, env: Env)
    requires InOrder(l) && CleanOp(Flush(hasToken, env))
    ensures InOrder(Apply(l, Flush(hasToken, env)))
  {
    hide Drain;
    if hasToken && env.listOk {
      RowsAscend(l);
      hide Ascending;
      assert l.rows[0..] == l.rows;
      CleanDrain(l.rows, env, 0);
      var d := Drain(l.rows, l.rows, env, 0);
      assert (l.answered + d.answered) + d.rows == l.answered + (d.answered + d.rows);
    }
  }

  lemma StepInOrder(l: Log, op: Op)
    requires InOrder(l) && CleanOp(op)
    ensures InOrder(Apply(l, op))
  {
    hide InOrder, CleanOp, Apply;
    match op
    case Enqueue(item) => EnqueueInOrder(l, item);
    case Flush(hasToken, env) => FlushInOrder(l, hasToken, env);
  }

  /**
   * Main result 3. Over any sequence of enqueues and flushes without server errors
   * and failing deletes, the answered items followed by the queue are exactly the
   * items in the order they were stored: first in, first answered, each once.
   */
  lemma {:induction false} FirstInFirstAnswered(l: Log, ops: seq<Op>)
    requires InOrder(l) && forall i :: 0 <= i < |ops| ==> CleanOp(ops[i])
    ensures InOrder(ApplyAll(l, ops))
    decreases |ops|
  {
    if ops != [] {
      StepInOrder(l, ops[0]);
      FirstInFirstAnswered(Apply(l, ops[0]), ops[1..]);
    }
  }

  lemma {:induction false} CleanRunAnswersAll(rows: seq<Row>, env: Env, i: nat)
    requires i <= |rows| && Ascending(rows) && forall k: nat :: IsFinal(env.answer(k)) && env.deleteOk(k)
    ensures var d := Drain(rows[i..], rows, env, i);
            d.rows == [] && d.answered == rows[i..] && d.attempted == |rows| - i
    decreases |rows| - i
  {
    DrainFront(rows[i..], rows, env, i);
    if i < |rows| {
      RemoveFirst(rows, i);
      hide Drain, Remove, Ascending;
      assert IsFinal(env.answer(i)) && env.answer(i).Status?;
      CleanRunAnswersAll(rows, env, i + 1);
      assert rows[i..] == [rows[i]] + rows[i + 1..];
    }
  }

  /** A flush with a token and a readable store, whose posts are all answered and deleted, empties the store and answers everything. */
  lemma FlushEmptiesTheStore(l: Log, env: Env)
    requires Ascending(l.rows) && env.listOk && forall k: nat :: IsFinal(env.answer(k)) && env.deleteOk(k)
    ensures Apply(l, Flush(true, env)) == l.(rows := [], answered := l.answered + l.rows)
    ensures Apply(l, Flush(false, env)) == l
  {
    CleanRunAnswersAll(l.rows, env, 0);
    assert l.rows[0..] == l.rows;
  }

  // ---------------------------------------------------------------------
  // Overlapping flushes
  // ---------------------------------------------------------------------

  datatype Stage = Posting | Deleting(id: nat) | Ended

  /** One flush in progress: its snapshot, its position, what it is waiting for. */
  datatype Flusher = Flusher(items: seq<Row>, pos: nat, stage: Stage)

  datatype World = World(
    rows: seq<Row>,
    nextId: nat,
    stored: seq<Row>,                // everything ever stored
    answers: seq<(nat, Answer)>,     // every answer received, with the id of its item
    flushers: seq<Flusher>)

  const EMPTY := World([], 1, [], [], [])

  datatype Move =
    | Add(item: Item, storeOk: bool)
    | StartFlush(listOk: bool)
    | Post(f: nat, answer: Answer)
    | Delete(f: nat, storeOk: bool)
    | Die(f: nat)

  predicate CanMove(w: World, m: Move) {
    match m
    case Add(_, _) => true
    case StartFlush(_) => true
    case Post(f, _) => f < |w.flushers| && w.flushers[f].stage.Posting? && w.flushers[f].pos < |w.flushers[f].items|
    case Delete(f, _) => f < |w.flushers| && w.flushers[f].stage.Deleting?
    case Die(f) => f < |w.flushers|
  }

  function PostStep(w: World, f: nat, a: Answer): World
    requires CanMove(w, Post(f, a))
  {
    var fl := w.flushers[f];
    var id := fl.items[fl.pos].id;
    if a.NetworkError? then w.(flushers := w.flushers[f := fl.(stage := Ended)])
    else
      w.(answers := w.answers + [(id, a)],
         flushers := w.flushers[f := if IsFinal(a) then fl.(stage := Deleting(id)) else fl.(pos := fl.pos + 1)])
  }

  function Next(w: World, m: Move): World
    requires CanMove(w, m)
  {
    match m
    case Add(item, storeOk) =>
      if !storeOk then w
      else
        var r := Row(w.nextId, item);
        w.(rows := w.rows + [r], nextId := w.nextId + 1, stored := w.stored + [r])
    case StartFlush(listOk) =>
      w.(flushers := w.flushers + [Flusher(if listOk then w.rows else [], 0, Posting)])
    case Post(f, a) => PostStep(w, f, a)
    case Delete(f, storeOk) =>
      var fl := w.flushers[f];
      w.(rows := if storeOk then Remove(w.rows, fl.stage.id) else w.rows,
         flushers := w.flushers[f := fl.(pos := fl.pos + 1, stage := Posting)])
    case Die(f) => w.(flushers := w.flushers[f := w.flushers[f].(stage := Ended)])
  }

  ghost predicate Answered(w: World, id: nat) {
    exists k :: 0 <= k < |w.answers| && w.answers[k].0 == id && IsFinal(w.answers[k].1)
  }

  ghost predicate Known(w: World, id: nat) {
    exists x :: x in w.stored && x.id == id
  }

  ghost predicate FlusherOk(w: World, fl: Flusher) {
    && (forall i :: 0 <= i < |fl.items| ==> fl.items[i] in w.stored)
    && (fl.stage.Deleting? ==> Answered(w, fl.stage.id))
  }

  ghost predicate WorldOk(w: World) {
    && (forall x :: x in w.stored ==> x.id < w.nextId)
    && (forall x, y :: x in w.stored && y in w.stored && x.id == y.id ==> x == y)
    && (forall x :: x in w.rows ==> x in w.stored)
    && (forall x :: x in w.stored ==> x in w.rows || Answered(w, x.id))
    && (forall k :: 0 <= k < |w.answers| ==> Known(w, w.answers[k].0))
    && (forall f :: 0 <= f < |w.flushers| ==> FlusherOk(w, w.flushers[f]))
  }

  lemma AnsweredPersists(w: World, v: World, id: nat)
    requires w.answers <= v.answers && Answered(w, id)
    ensures Answered(v, id)
  {
    var k :| 0 <= k < |w.answers| && w.answers[k].0 == id && IsFinal(w.answers[k].1);
    assert v.answers[k] == w.answers[k];
  }

  lemma MoveKeepsFlushers(w: World, m: Move)
    requires WorldOk(w) && CanMove(w, m)
    ensures forall f :: 0 <= f < |Next(w, m).flushers| ==> FlusherOk(Next(w, m), Next(w, m).flushers[f])
  {
    var v := Next(w, m);
    forall f | 0 <= f < |v.flushers| ensures FlusherOk(v, v.flushers[f]) {
      if f < |w.flushers| {
        assert FlusherOk(w, w.flushers[f]);
        var fl := v.flushers[f];
        if fl.stage.Deleting? {
          if w.flushers[f].stage == fl.stage {
            AnsweredPersists(w, v, fl.stage.id);
          } else {
            assert v.answers[|w.answers|] == (fl.stage.id, m.answer);
          }
        }
      }
    }
  }

  lemma MoveKeepsWorld(w: World, m: Move)
    requires WorldOk(w) && CanMove(w, m)
    ensures WorldOk(Next(w, m))
  {
    var v := Next(w, m);
    MoveKeepsFlushers(w, m);
    forall x | x in v.stored ensures x in v.rows || Answered(v, x.id) {
      if m.Delete? { assert FlusherOk(w, w.flushers[m.f]); }
      if Answered(w, x.id) { AnsweredPersists(w, v, x.id); }
    }
    forall k | 0 <= k < |v.answers| ensures Known(v, v.answers[k].0) {
      AnswersAreKnown(w, m, k);
    }
  }

  lemma AnswersAreKnown(w: World, m: Move, k: nat)
    requires WorldOk(w) && CanMove(w, m) && k < |Next(w, m).answers|
    ensures Known(Next(w, m), Next(w, m).answers[k].0)
  {
    var v := Next(w, m);
    if k < |w.answers| {
      assert v.answers[k] == w.answers[k] && Known(w, w.answers[k].0);
      var x :| x in w.stored && x.id == w.answers[k].0;
      assert x in v.stored;
    } else {
      var fl := w.flushers[m.f];
      assert FlusherOk(w, fl) && fl.items[fl.pos] in v.stored;
    }
  }

  function Run(w: World, ms: seq<Move>): (r: World)
    requires Runs(w, ms)
    decreases |ms|
  {
    if ms == [] then w else Run(Next(w, ms[0]), ms[1..])
  }

  predicate Runs(w: World, ms: seq<Move>)
    decreases |ms|
  {
    ms == [] || (CanMove(w, ms[0]) && Runs(Next(w, ms[0]), ms[1..]))
  }

  /**
   * Main result 4. In every interleaving of enqueues, any number of overlapping
   * flushes, network failures, failing deletes and dying pages, every item ever
   * stored is still queued or was answered 2xx or 4xx.
   */
  lemma {:induction false} NothingIsLost(w: World, ms: seq<Move>)
    requires WorldOk(w) && Runs(w, ms)
    ensures WorldOk(Run(w, ms))
    ensures forall x :: x in Run(w, ms).stored ==> x in Run(w, ms).rows || Answered(Run(w, ms), x.id)
    decreases |ms|
  {
    if ms != [] {
      MoveKeepsWorld(w, ms[0]);
      NothingIsLost(Next(w, ms[0]), ms[1..]);
    }
  }

  lemma EmptyWorldIsOk()
    ensures WorldOk(EMPTY)
  {
  }

  /** In particular from an empty device on. */
  lemma NothingIsEverLost(ms: seq<Move>)
    requires Runs(EMPTY, ms)
    ensures forall x :: x in Run(EMPTY, ms).stored ==> x in Run(EMPTY, ms).rows || Answered(Run(EMPTY, ms), x.id)
  {
    EmptyWorldIsOk();
    NothingIsLost(EMPTY, ms);
  }

  /** The moves of flush `f` when nothing else happens: post, delete after a final answer, stop at a network failure. */
  function Alone(f: nat, items: seq<Row>, env: Env, i: nat): seq<Move>
    requires i <= |items|
    decreases |items| - i
  {
    if i == |items| then []
    else
      [Post(f, env.answer(i))] +
      (if env.answer(i).NetworkError? then []
       else if IsFinal(env.answer(i)) then [Delete(f, env.deleteOk(i))] + Alone(f, items, env, i + 1)
       else Alone(f, items, env, i + 1))
  }

  /** The steps of a flush that runs alone leave the store as `Drain`, and so `flushQueue`, leaves it. */
  lemma {:induction false} AloneItDrains(w: World, f: nat, env: Env, i: nat)
    requires f < |w.flushers| && w.flushers[f].stage.Posting? && w.flushers[f].pos == i <= |w.flushers[f].items|
    ensures var items := w.flushers[f].items; var ms := Alone(f, items, env, i);
            Runs(w, ms) && Run(w, ms).rows == Drain(w.rows, items, env, i).rows
    decreases |w.flushers[f].items| - i
  {
    hide Remove, IsFinal;
    var items := w.flushers[f].items;
    if i < |items| {
      var a := env.answer(i);
      var p := Post(f, a);
      var v := Next(w, p);
      if a.NetworkError? {
        RunOne(w, p, []);
      } else if IsFinal(a) {
        var d := Delete(f, env.deleteOk(i));
        AloneItDrains(Next(v, d), f, env, i + 1);
        RunOne(v, d, Alone(f, items, env, i + 1));
        RunOne(w, p, [d] + Alone(f, items, env, i + 1));
      } else {
        AloneItDrains(v, f, env, i + 1);
        RunOne(w, p, Alone(f, items, env, i + 1));
      }
    }
  }

  /** A flush that met a network failure, or whose page died, makes no further move of its own. */
  lemma EndedIsSilent(w: World, f: nat, a: Answer, storeOk: bool)
    requires f < |w.flushers|
    ensures CanMove(w, Post(f, NetworkError)) ==>
              var v := Next(w, Post(f, NetworkError));
              v.answers == w.answers && !CanMove(v, Post(f, a)) && !CanMove(v, Delete(f, storeOk))
    ensures var v := Next(w, Die(f));
            v.answers == w.answers && !CanMove(v, Post(f, a)) && !CanMove(v, Delete(f, storeOk))
  {
  }

  lemma RunOne(w: World, m: Move, ms: seq<Move>)
    requires CanMove(w, m) && Runs(Next(w, m), ms)
    ensures Runs(w, [m] + ms) && Run(w, [m] + ms) == Run(Next(w, m), ms)
  {
    assert ([m] + ms)[1..] == ms;
  }

  // ---------------------------------------------------------------------
  // Posting again
  // ---------------------------------------------------------------------

  /** Where a flush goes on after what it is waiting for. */
  function NextPos(fl: Flusher): nat { if fl.stage.Deleting? then fl.pos + 1 else fl.pos }

  ghost predicate Queued(rows: seq<Row>, id: nat) { exists k :: 0 <= k < |rows| && rows[k].id == id }

  /** A flush that has not ended still has the item before it. */
  ghost predicate Ahead(fl: Flusher, id: nat) {
    !fl.stage.Ended? && exists k :: NextPos(fl) <= k < |fl.items| && fl.items[k].id == id
  }

  /** The item is in the store, or some running flush has yet to post it. */
  ghost predicate Exposed(w: World, id: nat) {
    Queued(w.rows, id) || exists f :: 0 <= f < |w.flushers| && Ahead(w.flushers[f], id)
  }

  /** `v` has an answer for the item that `w` had not. */
  ghost predicate NewAnswer(w: World, v: World, id: nat, onlyOk: bool) {
    exists k :: |w.answers| <= k < |v.answers| && v.answers[k].0 == id && (onlyOk ==> IsOk(v.answers[k].1))
  }

  /** Some continuation answers the item; with `onlyOk`, with a 2xx. */
  ghost predicate CanBeAnswered(w: World, id: nat, onlyOk: bool) {
    exists ms :: Runs(w, ms) && NewAnswer(w, Run(w, ms), id, onlyOk)
  }

  lemma StepStaysClear(w: World, m: Move, id: nat)
    requires WorldOk(w) && CanMove(w, m) && Known(w, id) && !Exposed(w, id)
    ensures var v := Next(w, m);
            && Known(v, id) && !Exposed(v, id)
            && (v.answers == w.answers || exists a :: v.answers == w.answers + [a] && a.0 != id)
  {
    var v := Next(w, m);
    var x :| x in w.stored && x.id == id;
    assert x in v.stored;
    StoreStaysClear(w, m, id);
    forall f | 0 <= f < |v.flushers| ensures !Ahead(v.flushers[f], id) { FlusherStaysClear(w, m, id, f); }
    if m.Post? {
      var fl := w.flushers[m.f];
      assert !Ahead(fl, id);
      assert fl.items[fl.pos].id != id;
    }
  }

  lemma StoreStaysClear(w: World, m: Move, id: nat)
    requires WorldOk(w) && CanMove(w, m) && Known(w, id) && !Queued(w.rows, id)
    ensures !Queued(Next(w, m).rows, id)
  {
    var v := Next(w, m);
    forall k | 0 <= k < |v.rows| ensures v.rows[k].id != id {
      assert v.rows[k] in v.rows;
      if v.rows[k] in w.rows { assert exists j :: 0 <= j < |w.rows| && w.rows[j] == v.rows[k]; }
    }
  }

  lemma FlusherStaysClear(w: World, m: Move, id: nat, f: nat)
    requires CanMove(w, m) && !Exposed(w, id) && f < |Next(w, m).flushers|
    ensures !Ahead(Next(w, m).flushers[f], id)
  {
    hide Remove;
    if f < |w.flushers| { assert !Ahead(w.flushers[f], id); }
  }

  lemma {:induction false} RunStaysClear(w: World, ms: seq<Move>, id: nat)
    requires WorldOk(w) && Runs(w, ms) && Known(w, id) && !Exposed(w, id)
    ensures !NewAnswer(w, Run(w, ms), id, false)
    ensures w.answers <= Run(w, ms).answers
    decreases |ms|
  {
    if ms != [] {
      var v := Next(w, ms[0]);
      StepStaysClear(w, ms[0], id);
      MoveKeepsWorld(w, ms[0]);
      RunStaysClear(v, ms[1..], id);
      hide Exposed, WorldOk, Known, Next;
      var last := Run(w, ms);
      forall k | |w.answers| <= k < |last.answers| ensures last.answers[k].0 != id {
        if k < |v.answers| { assert last.answers[k] == v.answers[k]; }
      }
    }
  }

  lemma AnswerLater(w: World, m: Move, id: nat)
    requires CanMove(w, m) && CanBeAnswered(Next(w, m), id, true) && |w.answers| <= |Next(w, m).answers|
    ensures CanBeAnswered(w, id, true)
  {
    var v := Next(w, m);
    var ms :| Runs(v, ms) && NewAnswer(v, Run(v, ms), id, true);
    hide Next;
    var all := [m] + ms;
    assert all[1..] == ms;
    assert Runs(w, all) && Run(w, all) == Run(v, ms);
  }

  /** A posting flush can be driven to any item ahead of it: server errors up to there, then a 200. */
  lemma {:induction false} ReachItem(w: World, f: nat, k: nat)
    requires f < |w.flushers| && w.flushers[f].stage.Posting? && w.flushers[f].pos <= k < |w.flushers[f].items|
    ensures CanBeAnswered(w, w.flushers[f].items[k].id, true)
    decreases k - w.flushers[f].pos
  {
    var id := w.flushers[f].items[k].id;
    if k == w.flushers[f].pos {
      var m := Post(f, Status(200));
      var v := Next(w, m);
      assert v.answers[|w.answers|] == (id, Status(200));
      assert NewAnswer(w, v, id, true);
      assert [m][1..] == [] && Runs(v, []) && Run(v, []) == v;
      assert Runs(w, [m]) && Run(w, [m]) == v;
    } else {
      var m := Post(f, Status(500));
      var v := Next(w, m);
      assert v.flushers[f] == w.flushers[f].(pos := w.flushers[f].pos + 1);
      ReachItem(v, f, k);
      AnswerLater(w, m, id);
    }
  }

  lemma ExposedCanBeAnswered(w: World, id: nat)
    requires Exposed(w, id)
    ensures CanBeAnswered(w, id, true)
  {
    if Queued(w.rows, id) {
      var k :| 0 <= k < |w.rows| && w.rows[k].id == id;
      var m, n := StartFlush(true), |w.flushers|;
      assert Next(w, m).flushers[n] == Flusher(w.rows, 0, Posting);
      ReachItem(Next(w, m), n, k);
      AnswerLater(w, m, id);
    } else {
      var f :| 0 <= f < |w.flushers| && Ahead(w.flushers[f], id);
      var fl := w.flushers[f];
      var k :| NextPos(fl) <= k < |fl.items| && fl.items[k].id == id;
      if fl.stage.Posting? {
        ReachItem(w, f, k);
      } else {
        var m := Delete(f, false);
        assert Next(w, m).flushers[f] == fl.(pos := fl.pos + 1, stage := Posting);
        ReachItem(Next(w, m), f, k);
        AnswerLater(w, m, id);
      }
    }
  }

  /**
   * Main result 5. From any state of any interleaving, a stored item, answered
   * before or not, can be answered (again) exactly when it is still in the store or
   * ahead of a flush that has not ended; and then it can be answered with a 2xx.
   */
  lemma AnsweredAgainExactly(w: World, id: nat)
    requires WorldOk(w) && Known(w, id)
    ensures CanBeAnswered(w, id, false) <==> Exposed(w, id)
    ensures CanBeAnswered(w, id, true) <==> Exposed(w, id)
  {
    if Exposed(w, id) {
      ExposedCanBeAnswered(w, id);
      AnyAnswer(w, id);
    } else {
      forall ms | Runs(w, ms) ensures !NewAnswer(w, Run(w, ms), id, false) { RunStaysClear(w, ms, id); }
      if CanBeAnswered(w, id, true) { AnyAnswer(w, id); }
    }
  }

  lemma AnyAnswer(w: World, id: nat)
    requires CanBeAnswered(w, id, true)
    ensures CanBeAnswered(w, id, false)
  {
    var ms :| Runs(w, ms) && NewAnswer(w, Run(w, ms), id, true);
    assert NewAnswer(w, Run(w, ms), id, false);
  }

  /** Overlap has a price: the same item can be answered twice. */
  lemma OverlapCanPostTwice(item: Item)
    ensures var ms := [Add(item, true), StartFlush(true), StartFlush(true), Post(0, Status(200)), Post(1, Status(200))];
            Runs(EMPTY, ms) && Run(EMPTY, ms).answers == [(1, Status(200)), (1, Status(200))]
  {
    var ms := [Add(item, true), StartFlush(true), StartFlush(true), Post(0, Status(200)), Post(1, Status(200))];
    var w1 := Next(EMPTY, ms[0]);
    var w2 := Next(w1, ms[1]);
    var w3 := Next(w2, ms[2]);
    var w4 := Next(w3, ms[3]);
    var w5 := Next(w4, ms[4]);
    assert ms[4..][1..] == [] && ms[3..][1..] == ms[4..] && ms[2..][1..] == ms[3..] && ms[1..][1..] == ms[2..];
    assert Runs(w5, []) && Run(w5, []) == w5;
    assert Runs(w4, ms[4..]) && Run(w4, ms[4..]) == w5;
    assert Runs(w3, ms[3..]) && Run(w3, ms[3..]) == w5;
    assert Runs(w2, ms[2..]) && Run(w2, ms[2..]) == w5;
    assert Runs(w1, ms[1..]) && Run(w1, ms[1..]) == w5;
  }
}
