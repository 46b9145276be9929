/**
 * `Array.prototype.sort`: a stable sort by a comparator. The comparator is any
 * total preorder (`localeCompare` may tie on different strings), so what a sort
 * leaves to the input order is exactly the order inside a tie.
 */
module Sorting {

  ghost predicate TotalPreorder<T(!new)>(le: (T, T) -> bool) {
    && (forall a, b :: le(a, b) || le(b, a))
    && (forall a, b, c :: le(a, b) && le(b, c) ==> le(a, c))
  }

  predicate Tie<T>(le: (T, T) -> bool, a: T, b: T) { le(a, b) && le(b, a) }

  ghost predicate Sorted<T>(le: (T, T) -> bool, xs: seq<T>) {
    forall i, j :: 0 <= i < j < |xs| ==> le(xs[i], xs[j])
  }

  function Insert<T>(le: (T, T) -> bool, x: T, xs: seq<T>): seq<T> {
    if xs == [] then [x] else if le(x, xs[0]) then [x] + xs else [xs[0]] + Insert(le, x, xs[1..])
  }

  function Sort<T>(le: (T, T) -> bool, xs: seq<T>): seq<T> {
    if xs == [] then [] else Insert(le, xs[0], Sort(le, xs[1..]))
  }

  /** The elements of `xs` that tie with `z`, in the order of `xs`. */
  function Ties<T>(le: (T, T) -> bool, z: T, xs: seq<T>): seq<T> {
    if xs == [] then []
    else (if Tie(le, z, xs[0]) then [xs[0]] else []) + Ties(le, z, xs[1..])
  }

  lemma {:induction false} InsertPermutes<T>(le: (T, T) -> bool, x: T, xs: seq<T>)
    ensures multiset(Insert(le, x, xs)) == multiset([x] + xs)
  {
    if xs != [] && !le(x, xs[0]) {
      InsertPermutes(le, x, xs[1..]);
      assert xs == [xs[0]] + xs[1..];
    }
  }

  lemma {:induction false} SortPermutes<T>(le: (T, T) -> bool, xs: seq<T>)
    ensures multiset(Sort(le, xs)) == multiset(xs)
  {
    if xs != [] {
      SortPermutes(le, xs[1..]);
      InsertPermutes(le, xs[0], Sort(le, xs[1..]));
      assert xs == [xs[0]] + xs[1..];
    }
  }

  lemma {:induction false} InsertSorts<T(!new)>(le: (T, T) -> bool, x: T, xs: seq<T>)
    requires TotalPreorder(le) && Sorted(le, xs)
    ensures Sorted(le, Insert(le, x, xs))
  {
    if xs != [] {
      if le(x, xs[0]) {
        assert forall j :: 0 < j < |xs| ==> le(xs[0], xs[j]);
      } else {
        var rest := Insert(le, x, xs[1..]);
        InsertSorts(le, x, xs[1..]);
        InsertPermutes(le, x, xs[1..]);
        forall j | 0 <= j < |rest| ensures le(xs[0], rest[j]) {
          assert rest[j] in multiset(rest);
          assert rest[j] in multiset([x] + xs[1..]);
          assert rest[j] == x || rest[j] in xs[1..];
        }
      }
    }
  }

  lemma {:induction false} SortSorts<T(!new)>(le: (T, T) -> bool, xs: seq<T>)
    requires TotalPreorder(le)
    ensures Sorted(le, Sort(le, xs))
  {
    if xs != [] {
      SortSorts(le, xs[1..]);
      InsertSorts(le, xs[0], Sort(le, xs[1..]));
    }
  }

  lemma {:induction false} TiesCons<T>(le: (T, T) -> bool, z: T, x: T, xs: seq<T>)
    ensures Ties(le, z, [x] + xs) == IfTied(le, z, x) + Ties(le, z, xs)
  {
    assert ([x] + xs)[1..] == xs;
  }

  function IfTied<T>(le: (T, T) -> bool, z: T, x: T): seq<T> { if Tie(le, z, x) then [x] else [] }

  lemma AtMostOneTied<T(!new)>(le: (T, T) -> bool, z: T, a: T, b: T, rest: seq<T>)
    requires TotalPreorder(le) && !le(a, b)
    ensures IfTied(le, z, a) + (IfTied(le, z, b) + rest) == IfTied(le, z, b) + (IfTied(le, z, a) + rest)
  {
    if Tie(le, z, a) { assert !Tie(le, z, b); }
  }

  lemma {:induction false} InsertStable<T(!new)>(le: (T, T) -> bool, z: T, x: T, xs: seq<T>)
    requires TotalPreorder(le)
    ensures Ties(le, z, Insert(le, x, xs)) == Ties(le, z, [x] + xs)
  {
    hide Ties, IfTied, TotalPreorder;
    if xs == [] {
      assert [x] + xs == [x];
    } else if !le(x, xs[0]) {
      var rest := Ties(le, z, xs[1..]);
      assert xs == [xs[0]] + xs[1..];
      calc {
        Ties(le, z, [xs[0]] + Insert(le, x, xs[1..]));
      ==  { TiesCons(le, z, xs[0], Insert(le, x, xs[1..])); InsertStable(le, z, x, xs[1..]); }
        IfTied(le, z, xs[0]) + Ties(le, z, [x] + xs[1..]);
      ==  { TiesCons(le, z, x, xs[1..]); }
        IfTied(le, z, xs[0]) + (IfTied(le, z, x) + rest);
      ==  { AtMostOneTied(le, z, x, xs[0], rest); }
        IfTied(le, z, x) + (IfTied(le, z, xs[0]) + rest);
      ==  { TiesCons(le, z, xs[0], xs[1..]); }
        IfTied(le, z, x) + Ties(le, z, xs);
      ==  { TiesCons(le, z, x, xs); }
        Ties(le, z, [x] + xs);
      }
    }
  }

  /** The sort is stable: inside a tie it keeps the order of the input. */
  lemma {:induction false} SortStable<T(!new)>(le: (T, T) -> bool, z: T, xs: seq<T>)
    requires TotalPreorder(le)
    ensures Ties(le, z, Sort(le, xs)) == Ties(le, z, xs)
  {
    if xs != [] {
      SortStable(le, z, xs[1..]);
      InsertStable(le, z, xs[0], Sort(le, xs[1..]));
      TiesCons(le, z, xs[0], Sort(le, xs[1..]));
      TiesCons(le, z, xs[0], xs[1..]);
      assert xs == [xs[0]] + xs[1..];
    }
  }

  ghost predicate NoTies<T>(le: (T, T) -> bool, xs: seq<T>) {
    forall i, j :: 0 <= i < |xs| && 0 <= j < |xs| && Tie(le, xs[i], xs[j]) ==> xs[i] == xs[j]
  }

  lemma SameLeast<T(!new)>(le: (T, T) -> bool, xs: seq<T>, ys: seq<T>)
    requires TotalPreorder(le) && Sorted(le, xs) && Sorted(le, ys)
    requires multiset(xs) == multiset(ys) && NoTies(le, xs) && xs != [] && ys != []
    ensures xs[0] == ys[0]
  {
    assert xs[0] in multiset(ys) && ys[0] in multiset(xs);
    var k :| 0 <= k < |xs| && xs[k] == ys[0];
    var m :| 0 <= m < |ys| && ys[m] == xs[0];
    if k != 0 && m != 0 { assert Tie(le, xs[0], xs[k]); }
  }

  lemma DropFirst<T>(xs: seq<T>)
    requires xs != []
    ensures multiset(xs[1..]) == multiset(xs) - multiset{xs[0]}
  {
    assert xs == [xs[0]] + xs[1..];
  }

  lemma {:induction false} SortedUnique<T(!new)>(le: (T, T) -> bool, xs: seq<T>, ys: seq<T>)
    requires TotalPreorder(le) && Sorted(le, xs) && Sorted(le, ys)
    requires multiset(xs) == multiset(ys) && NoTies(le, xs)
    ensures xs == ys
  {
    assert |multiset(xs)| == |xs| && |multiset(ys)| == |ys|;
    if xs != [] {
      SameLeast(le, xs, ys);
      DropFirst(xs);
      DropFirst(ys);
      TailKeeps(le, xs);
      TailKeeps(le, ys);
      hide TotalPreorder, Sorted, NoTies;
      SortedUnique(le, xs[1..], ys[1..]);
    }
  }

  lemma TailKeeps<T>(le: (T, T) -> bool, xs: seq<T>)
    requires xs != []
    ensures Sorted(le, xs) ==> Sorted(le, xs[1..])
    ensures NoTies(le, xs) ==> NoTies(le, xs[1..])
  {
  }

  /** Without ties a sort forgets the order of its input. */
  lemma SortForgetsOrder<T(!new)>(le: (T, T) -> bool, xs: seq<T>, ys: seq<T>)
    requires TotalPreorder(le) && multiset(xs) == multiset(ys) && NoTies(le, xs)
    ensures Sort(le, xs) == Sort(le, ys)
  {
    SortPermutes(le, xs);
    SortPermutes(le, ys);
    SortSorts(le, xs);
    SortSorts(le, ys);
    var sorted := Sort(le, xs);
    forall i, j | 0 <= i < |sorted| && 0 <= j < |sorted| && Tie(le, sorted[i], sorted[j]) ensures sorted[i] == sorted[j] {
      assert sorted[i] in multiset(xs) && sorted[j] in multiset(xs);
    }
    SortedUnique(le, sorted, Sort(le, ys));
  }

  lemma {:induction false} TiesHaveHead<T>(le: (T, T) -> bool, z: T, xs: seq<T>)
    requires xs != [] && Tie(le, z, xs[0])
    ensures Ties(le, z, xs) != [] && Ties(le, z, xs)[0] == xs[0]
  {
  }

  /** With a tie it does not: putting either of two tied elements first gives two different results. */
  lemma SortShowsOrder<T(!new)>(le: (T, T) -> bool, xs: seq<T>, ys: seq<T>)
    requires TotalPreorder(le) && xs != [] && ys != [] && Tie(le, xs[0], ys[0]) && xs[0] != ys[0]
    ensures Sort(le, xs) != Sort(le, ys)
  {
    var z := xs[0];
    assert le(z, z);
    SortStable(le, z, xs);
    SortStable(le, z, ys);
    TiesHaveHead(le, z, xs);
    TiesHaveHead(le, z, ys);
  }

  function Map<A, B>(f: A -> B, xs: seq<A>): (ys: seq<B>)
    ensures |ys| == |xs| && forall i :: 0 <= i < |xs| ==> ys[i] == f(xs[i])
  {
    if xs == [] then [] else [f(xs[0])] + Map(f, xs[1..])
  }

  lemma {:induction false} InsertMap<A, B>(f: A -> B, leA: (A, A) -> bool, leB: (B, B) -> bool, x: A, xs: seq<A>)
    requires forall a, b :: leB(f(a), f(b)) == leA(a, b)
    ensures Insert(leB, f(x), Map(f, xs)) == Map(f, Insert(leA, x, xs))
  {
    if xs != [] {
      assert Map(f, xs)[1..] == Map(f, xs[1..]);
      InsertMap(f, leA, leB, x, xs[1..]);
    }
  }

  /** Sorting rows by a key of the thing they were made from is making rows of the sorted things. */
  lemma {:induction false} SortMap<A, B>(f: A -> B, leA: (A, A) -> bool, leB: (B, B) -> bool, xs: seq<A>)
    requires forall a, b :: leB(f(a), f(b)) == leA(a, b)
    ensures Sort(leB, Map(f, xs)) == Map(f, Sort(leA, xs))
  {
    if xs != [] {
      assert Map(f, xs)[1..] == Map(f, xs[1..]);
      SortMap(f, leA, leB, xs[1..]);
      InsertMap(f, leA, leB, xs[0], Sort(leA, xs[1..]));
    }
  }

  /** The first element of a list, found in a permutation of the list. */
  lemma TakeOut<T>(xs: seq<T>, ys: seq<T>) returns (before: seq<T>, after: seq<T>)
    requires multiset(xs) == multiset(ys) && xs != []
    ensures ys == before + ([xs[0]] + after) && xs == [xs[0]] + xs[1..]
    ensures multiset(xs[1..]) == multiset(before + after)
  {
    assert xs[0] in multiset(ys);
    var k :| 0 <= k < |ys| && ys[k] == xs[0];
    before, after := ys[..k], ys[k + 1..];
    assert ys == before + ([xs[0]] + after);
    assert multiset(ys) == multiset(before) + multiset([xs[0]] + after);
    assert multiset([xs[0]] + after) == multiset{xs[0]} + multiset(after);
    assert multiset(before + after) == multiset(ys) - multiset{xs[0]};
    DropFirst(xs);
  }

  lemma OnlyEmptyPermutes<T>(ys: seq<T>)
    requires multiset(ys) == multiset{}
    ensures ys == []
  {
    assert |multiset(ys)| == |ys|;
  }

  lemma {:induction false} MapPermutes<A, B>(f: A -> B, xs: seq<A>, ys: seq<A>)
    requires multiset(xs) == multiset(ys)
    ensures multiset(Map(f, xs)) == multiset(Map(f, ys))
    decreases |xs|
  {
    if xs == [] {
      OnlyEmptyPermutes(ys);
    } else {
      hide Map;
      var before, after := TakeOut(xs, ys);
      MapPermutes(f, xs[1..], before + after);
      MapAppend(f, before, [xs[0]] + after);
      MapAppend(f, [xs[0]], after);
      MapAppend(f, before, after);
      MapAppend(f, [xs[0]], xs[1..]);
    }
  }

  lemma MapAppend<A, B>(f: A -> B, xs: seq<A>, ys: seq<A>)
    ensures Map(f, xs + ys) == Map(f, xs) + Map(f, ys)
  {
  }
}
