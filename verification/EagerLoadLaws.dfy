/**
 What many-to-many eager loading gives a parent, against the join of that parent alone.
 */
module EagerLoadLaws {
  import opened EagerLoad
  import Relation

  ghost function IdsOf<N(!new)>(id: N -> int, ns: seq<N>): (r: seq<int>)
    ensures |r| == |ns| && forall i :: 0 <= i < |ns| ==> r[i] == id(ns[i])
  {
    seq(|ns|, i requires 0 <= i < |ns| => id(ns[i]))
  }

  ghost predicate NoRepeats(xs: seq<int>) {
    forall i, j :: 0 <= i < j < |xs| ==> xs[i] != xs[j]
  }

  /** What a parent gets when no interceptor changes the neighbours. */
  ghost function Loaded<N(!new)>(id: N -> int, ls: seq<Link<N>>, out: int): seq<N> {
    RelatedOf(id, ls, out, Firsts(id, ls))
  }

  lemma {:induction false} FirstsOnceEach<N(!new)>(id: N -> int, ls: seq<Link<N>>)
    ensures NoRepeats(IdsOf(id, Firsts(id, ls)))
    ensures forall x :: x in IdsOf(id, Firsts(id, ls)) <==> Appears(id, ls, x)
  {
    if ls != [] {
      var init, l := ls[..|ls| - 1], ls[|ls| - 1];
      FirstsOnceEach(id, init);
      assert ls == init + [l];
      FirstsOneMore(id, init, l);
      forall x
        ensures Appears(id, ls, x) <==> Appears(id, init, x) || id(l.node) == x
      {
        AppearsOneMore(id, init, l, x);
      }
      var a, b := IdsOf(id, Firsts(id, init)), IdsOf(id, Firsts(id, ls));
      assert b == a + if Appears(id, init, id(l.node)) then [] else [id(l.node)];
    }
  }

  lemma {:induction false} RelatedOfFilters<N(!new)>(id: N -> int, ls: seq<Link<N>>, out: int, ns: seq<N>)
    requires NoRepeats(IdsOf(id, ns))
    ensures NoRepeats(IdsOf(id, RelatedOf(id, ls, out, ns)))
    ensures forall x :: x in IdsOf(id, RelatedOf(id, ls, out, ns)) <==> x in IdsOf(id, ns) && Related(id, ls, out, x)
  {
    if ns != [] {
      var init, n := ns[..|ns| - 1], ns[|ns| - 1];
      var a := IdsOf(id, init);
      assert IdsOf(id, ns) == a + [id(n)];
      assert forall i :: 0 <= i < |a| ==> a[i] == IdsOf(id, ns)[i];
      RelatedOfFilters(id, ls, out, init);
      assert IdsOf(id, RelatedOf(id, ls, out, ns))
          == IdsOf(id, RelatedOf(id, ls, out, init)) + if Related(id, ls, out, id(n)) then [id(n)] else [];
      assert id(n) !in a by {
        assert forall i :: 0 <= i < |a| ==> IdsOf(id, ns)[i] != IdsOf(id, ns)[|a|];
      }
    }
  }

  /** Each related neighbour is loaded, exactly once, and nothing else. */
  lemma LoadedOnceEach<N(!new)>(id: N -> int, ls: seq<Link<N>>, out: int)
    ensures NoRepeats(IdsOf(id, Loaded(id, ls, out)))
    ensures forall x :: x in IdsOf(id, Loaded(id, ls, out)) <==> Related(id, ls, out, x)
  {
    FirstsOnceEach(id, ls);
    RelatedOfFilters(id, ls, out, Firsts(id, ls));
    forall x | Related(id, ls, out, x)
      ensures Appears(id, ls, x)
    {
    }
  }

  /** Without interceptors the error for an unexpected node cannot occur. */
  lemma UnchangedNeighboursAreKnown<N(!new)>(id: N -> int, ls: seq<Link<N>>, j: nat)
    requires j < |Firsts(id, ls)|
    ensures Appears(id, ls, id(Firsts(id, ls)[j]))
  {
    FirstsOnceEach(id, ls);
    assert IdsOf(id, Firsts(id, ls))[j] in IdsOf(id, Firsts(id, ls));
  }

  // ---- Running the query again ----

  lemma {:induction false} FirstsThenNew<N(!new)>(id: N -> int, seen: seq<Link<N>>, ls: seq<Link<N>>)
    ensures Firsts(id, seen + ls) == Firsts(id, seen) + NewIn(id, seen, ls)
  {
    if ls == [] {
      assert seen + ls == seen;
    } else {
      var init, l := ls[..|ls| - 1], ls[|ls| - 1];
      FirstsThenNew(id, seen, init);
      assert seen + ls == seen + init + [l];
      FirstsOneMore(id, seen + init, l);
    }
  }

  /** Interceptors that run the query once get every neighbour of the stream. */
  lemma OneRunAnswersAll<N(!new)>(id: N -> int, ls: seq<Link<N>>)
    ensures Flat([ls]) == ls && Answers(id, [ls]) == [Firsts(id, ls)]
  {
    FirstsThenNew(id, [], ls);
    assert [ls][..0] == [] && [] + ls == ls;
    assert Flat([ls][..0]) == [] && Answers(id, [ls][..0]) == [];
    assert Firsts(id, []) == [] && Firsts(id, ls) == NewIn(id, [], ls);
    assert Answers(id, [ls]) == [] + [NewIn(id, [], ls)];
  }

  lemma AppearsInEither<N(!new)>(id: N -> int, xs: seq<Link<N>>, ys: seq<Link<N>>, x: int)
    ensures Appears(id, xs + ys, x) <==> Appears(id, xs, x) || Appears(id, ys, x)
  {
    var all := xs + ys;
    assert forall i :: 0 <= i < |xs| ==> all[i] == xs[i];
    assert forall i :: 0 <= i < |ys| ==> all[|xs| + i] == ys[i];
    assert forall i :: |xs| <= i < |all| ==> all[i] == ys[i - |xs|];
  }

  lemma AppearsAmongKnown<N(!new)>(id: N -> int, seen: seq<Link<N>>, ls: seq<Link<N>>, x: int)
    requires forall i :: 0 <= i < |ls| ==> Appears(id, seen, id(ls[i].node))
    ensures Appears(id, seen + ls, x) <==> Appears(id, seen, x)
  {
    AppearsInEither(id, seen, ls, x);
  }

  lemma {:induction false} NothingNew<N(!new)>(id: N -> int, seen: seq<Link<N>>, ls: seq<Link<N>>)
    ensures NewIn(id, seen, ls) == [] <==> forall i :: 0 <= i < |ls| ==> Appears(id, seen, id(ls[i].node))
  {
    if ls != [] {
      var init, l := ls[..|ls| - 1], ls[|ls| - 1];
      NothingNew(id, seen, init);
      assert forall i :: 0 <= i < |init| ==> ls[i] == init[i];
      if NewIn(id, seen, init) == [] {
        AppearsAmongKnown(id, seen, init, id(l.node));
      }
    }
  }

  /** Neighbours of `ls` that were seen before are missing among the new ones. */
  lemma {:induction false} AllNew<N(!new)>(id: N -> int, seen: seq<Link<N>>, ls: seq<Link<N>>)
    ensures |NewIn(id, seen, ls)| <= |Firsts(id, ls)|
    ensures NewIn(id, seen, ls) == Firsts(id, ls) <==> forall i :: 0 <= i < |ls| ==> !Appears(id, seen, id(ls[i].node))
    ensures |NewIn(id, seen, ls)| == |Firsts(id, ls)| ==> NewIn(id, seen, ls) == Firsts(id, ls)
  {
    if ls != [] {
      var init, l := ls[..|ls| - 1], ls[|ls| - 1];
      AllNew(id, seen, init);
      AppearsInEither(id, seen, init, id(l.node));
      assert forall i :: 0 <= i < |init| ==> ls[i] == init[i];
      if Appears(id, init, id(l.node)) {
        var i :| 0 <= i < |init| && id(init[i].node) == id(l.node);
      }
    }
  }

  lemma SecondAnswer<N(!new)>(id: N -> int, first: seq<Link<N>>, second: seq<Link<N>>)
    ensures Answers(id, [first, second]) == [Firsts(id, first), NewIn(id, first, second)]
  {
    OneRunAnswersAll(id, first);
    assert [first, second][..1] == [first];
  }

  /** An interceptor that runs the query again gets all neighbours of the second run exactly
      when the first run had none of them. */
  lemma RetryIsCompleteExactly<N(!new)>(id: N -> int, first: seq<Link<N>>, second: seq<Link<N>>)
    ensures |Answers(id, [first, second])| == 2 && Answers(id, [first, second])[0] == Firsts(id, first)
    ensures Answers(id, [first, second])[1] == Firsts(id, second)
       <==> forall i :: 0 <= i < |second| ==> !Appears(id, first, id(second[i].node))
  {
    SecondAnswer(id, first, second);
    AllNew(id, first, second);
  }

  /** ... and none at all exactly when the first run had all of them: a plain retry. */
  lemma RetryFindsNothing<N(!new)>(id: N -> int, first: seq<Link<N>>, second: seq<Link<N>>)
    ensures |Answers(id, [first, second])| == 2
    ensures Answers(id, [first, second])[1] == []
       <==> forall i :: 0 <= i < |second| ==> Appears(id, first, id(second[i].node))
  {
    SecondAnswer(id, first, second);
    NothingNew(id, first, second);
  }

  // ---- Against the naive query of one parent ----

  /** The rows of one parent. */
  ghost function RowsOfParent<N(!new)>(ls: seq<Link<N>>, out: int): seq<Link<N>> {
    if ls == [] then []
    else RowsOfParent(ls[..|ls| - 1], out) + if ls[|ls| - 1].out == out then [ls[|ls| - 1]] else []
  }

  /** The neighbours a query for this parent alone would return. */
  ghost function Naive<N(!new)>(id: N -> int, ls: seq<Link<N>>, out: int): seq<N> {
    Firsts(id, RowsOfParent(ls, out))
  }

  lemma {:induction false} RowsOfParentAppear<N(!new)>(id: N -> int, ls: seq<Link<N>>, out: int, x: int)
    ensures Appears(id, RowsOfParent(ls, out), x) <==> Related(id, ls, out, x)
  {
    if ls != [] {
      var init, l := ls[..|ls| - 1], ls[|ls| - 1];
      RowsOfParentAppear(id, init, out, x);
      assert ls == init + [l];
      RelatedOneMore(id, init, l, out, x);
      AppearsOneMore(id, RowsOfParent(init, out), l, x);
      assert RowsOfParent(init, out) + [] == RowsOfParent(init, out);
    }
  }

  /** Eager loading and the naive query give a parent the same neighbours. */
  lemma LoadedAreTheNaiveOnes<N(!new)>(id: N -> int, ls: seq<Link<N>>, out: int)
    ensures forall x :: x in IdsOf(id, Loaded(id, ls, out)) <==> x in IdsOf(id, Naive(id, ls, out))
    ensures multiset(IdsOf(id, Loaded(id, ls, out))) == multiset(IdsOf(id, Naive(id, ls, out)))
  {
    LoadedOnceEach(id, ls, out);
    FirstsOnceEach(id, RowsOfParent(ls, out));
    forall x
      ensures x in IdsOf(id, Loaded(id, ls, out)) <==> x in IdsOf(id, Naive(id, ls, out))
    {
      RowsOfParentAppear(id, ls, out, x);
    }
    SameMembersSameMultiset(IdsOf(id, Loaded(id, ls, out)), IdsOf(id, Naive(id, ls, out)));
  }

  lemma {:induction false} CountsOnce(xs: seq<int>, x: int)
    requires NoRepeats(xs)
    ensures multiset(xs)[x] == if x in xs then 1 else 0
  {
    if xs != [] {
      var init := xs[..|xs| - 1];
      assert xs == init + [xs[|xs| - 1]];
      CountsOnce(init, x);
    }
  }

  lemma SameMembersSameMultiset(xs: seq<int>, ys: seq<int>)
    requires NoRepeats(xs) && NoRepeats(ys) && forall x :: x in xs <==> x in ys
    ensures multiset(xs) == multiset(ys)
  {
    forall x
      ensures multiset(xs)[x] == multiset(ys)[x]
    {
      CountsOnce(xs, x);
      CountsOnce(ys, x);
    }
  }

  /** The order can differ: it is that of the whole stream, not of the parent's own rows. */
  lemma OrderIsThatOfTheStream()
    ensures var id := (n: int) => n;
      var ls := [Link(1, 10), Link(2, 20), Link(2, 10)];
      Loaded(id, ls, 2) == [10, 20] && Naive(id, ls, 2) == [20, 10]
  {
    var id := (n: int) => n;
    var l0, l1, l2 := Link(1, 10), Link(2, 20), Link(2, 10);
    FirstsOneMore(id, [], l0);
    FirstsOneMore(id, [l0], l1);
    FirstsOneMore(id, [l0, l1], l2);
    assert [] + [l0] == [l0] && [l0] + [l1] == [l0, l1] && [l0, l1] + [l2] == [l0, l1, l2];
    assert id([l0, l1][0].node) == 10;
    assert Firsts(id, [l0, l1, l2]) == [10, 20];
    RelatedOneMore(id, [l0, l1], l2, 2, 10);
    RelatedOneMore(id, [l0, l1], l2, 2, 20);
    RelatedOneMore(id, [l0], l1, 2, 20);
    assert [10, 20][..1] == [10] && [10][..0] == [];
    assert RelatedOf(id, [l0, l1, l2], 2, [10]) == [10];
    OwnRowsFirst(id, l0, l1, l2);
  }

  lemma OwnRowsFirst(id: int -> int, l0: Link<int>, l1: Link<int>, l2: Link<int>)
    requires l0.out == 1 && l1 == Link(2, 20) && l2 == Link(2, 10) && id(20) != id(10)
    ensures Naive(id, [l0, l1, l2], 2) == [20, 10]
  {
    RowsOneMore([], l0, 2);
    RowsOneMore([l0], l1, 2);
    RowsOneMore([l0, l1], l2, 2);
    assert [] + [l0] == [l0] && [l0] + [l1] == [l0, l1] && [l0, l1] + [l2] == [l0, l1, l2];
    assert RowsOfParent([l0, l1, l2], 2) == [l1, l2];
    FirstsOneMore(id, [], l1);
    FirstsOneMore(id, [l1], l2);
    assert [] + [l1] == [l1] && [l1] + [l2] == [l1, l2];
  }

  lemma RowsOneMore<N(!new)>(ls: seq<Link<N>>, l: Link<N>, out: int)
    ensures RowsOfParent(ls + [l], out) == RowsOfParent(ls, out) + if l.out == out then [l] else []
  {
    assert (ls + [l])[..|ls|] == ls;
  }

  // ---- When the orders agree ----

  /** The place of a neighbour's first row in the stream. */
  ghost function FirstAt<N(!new)>(id: N -> int, ls: seq<Link<N>>, x: int): int {
    if ls == [] then 0
    else if Appears(id, ls[..|ls| - 1], x) then FirstAt(id, ls[..|ls| - 1], x)
    else |ls| - 1
  }

  /** The place in the stream of the first row that relates the parent to the neighbour. */
  ghost function OwnAt<N(!new)>(id: N -> int, ls: seq<Link<N>>, out: int, x: int): int {
    if ls == [] then 0
    else if Related(id, ls[..|ls| - 1], out, x) then OwnAt(id, ls[..|ls| - 1], out, x)
    else |ls| - 1
  }

  lemma {:induction false} FirstAtIs<N(!new)>(id: N -> int, ls: seq<Link<N>>, x: int)
    requires Appears(id, ls, x)
    ensures 0 <= FirstAt(id, ls, x) < |ls| && id(ls[FirstAt(id, ls, x)].node) == x
    ensures forall j :: 0 <= j < FirstAt(id, ls, x) ==> id(ls[j].node) != x
  {
    var init := ls[..|ls| - 1];
    assert forall j :: 0 <= j < |init| ==> ls[j] == init[j];
    if Appears(id, init, x) {
      FirstAtIs(id, init, x);
    } else {
      assert forall j :: 0 <= j < |init| ==> id(init[j].node) != x;
    }
  }

  lemma {:induction false} OwnAtIs<N(!new)>(id: N -> int, ls: seq<Link<N>>, out: int, x: int)
    requires Related(id, ls, out, x)
    ensures 0 <= OwnAt(id, ls, out, x) < |ls|
    ensures ls[OwnAt(id, ls, out, x)].out == out && id(ls[OwnAt(id, ls, out, x)].node) == x
  {
    var init := ls[..|ls| - 1];
    assert forall j :: 0 <= j < |init| ==> ls[j] == init[j];
    if Related(id, init, out, x) {
      OwnAtIs(id, init, out, x);
    }
  }

  ghost predicate Increasing<T>(place: T -> int, xs: seq<T>) {
    forall i, j :: 0 <= i < j < |xs| ==> place(xs[i]) < place(xs[j])
  }

  lemma {:induction false} FirstsIncrease<N(!new)>(id: N -> int, ls: seq<Link<N>>)
    ensures Increasing(x => FirstAt(id, ls, x), IdsOf(id, Firsts(id, ls)))
  {
    if ls != [] {
      var init, l := ls[..|ls| - 1], ls[|ls| - 1];
      FirstsIncrease(id, init);
      FirstsOnceEach(id, init);
      var a, b := IdsOf(id, Firsts(id, init)), IdsOf(id, Firsts(id, ls));
      assert b == a + if Appears(id, init, id(l.node)) then [] else [id(l.node)];
      forall i | 0 <= i < |a|
        ensures FirstAt(id, ls, b[i]) == FirstAt(id, init, a[i]) < |init|
      {
        assert a[i] in a;
        FirstAtIs(id, init, a[i]);
      }
      assert forall i, j :: 0 <= i < j < |a| ==> FirstAt(id, init, a[i]) < FirstAt(id, init, a[j]);
    }
  }

  lemma {:induction false} NaiveIncreases<N(!new)>(id: N -> int, ls: seq<Link<N>>, out: int)
    ensures Increasing(x => OwnAt(id, ls, out, x), IdsOf(id, Naive(id, ls, out)))
  {
    if ls != [] {
      var init, l := ls[..|ls| - 1], ls[|ls| - 1];
      var own := RowsOfParent(init, out);
      NaiveIncreases(id, init, out);
      FirstsOnceEach(id, own);
      FirstsOneMore(id, own, l);
      RowsOfParentAppear(id, init, out, id(l.node));
      var a, b := IdsOf(id, Naive(id, init, out)), IdsOf(id, Naive(id, ls, out));
      assert own + [] == own;
      assert b == a + if l.out != out || Related(id, init, out, id(l.node)) then [] else [id(l.node)];
      forall i | 0 <= i < |a|
        ensures OwnAt(id, ls, out, b[i]) == OwnAt(id, init, out, a[i]) < |init|
      {
        assert a[i] in a;
        RowsOfParentAppear(id, init, out, a[i]);
        OwnAtIs(id, init, out, a[i]);
      }
      assert forall i, j :: 0 <= i < j < |a| ==> OwnAt(id, init, out, a[i]) < OwnAt(id, init, out, a[j]);
    }
  }

  lemma {:induction false} FilteredIncrease<N(!new)>(place: int -> int, id: N -> int, ls: seq<Link<N>>, out: int, ns: seq<N>)
    requires Increasing(place, IdsOf(id, ns))
    ensures Increasing(place, IdsOf(id, RelatedOf(id, ls, out, ns)))
    ensures forall x :: x in IdsOf(id, RelatedOf(id, ls, out, ns)) ==> x in IdsOf(id, ns)
  {
    if ns != [] {
      var init, n := ns[..|ns| - 1], ns[|ns| - 1];
      var all, a := IdsOf(id, ns), IdsOf(id, init);
      assert all == a + [id(n)];
      assert forall i, j :: 0 <= i < j < |a| ==> a[i] == all[i] && a[j] == all[j];
      FilteredIncrease(place, id, ls, out, init);
      var kept := IdsOf(id, RelatedOf(id, ls, out, init));
      assert IdsOf(id, RelatedOf(id, ls, out, ns)) == kept + if Related(id, ls, out, id(n)) then [id(n)] else [];
      forall i | 0 <= i < |kept|
        ensures place(kept[i]) < place(id(n))
      {
        assert kept[i] in kept && kept[i] in a;
        var j :| 0 <= j < |a| && a[j] == kept[i];
        assert all[j] == a[j] && all[|a|] == id(n);
      }
    }
  }

  lemma LastIsGreatest<T>(place: T -> int, xs: seq<T>, i: nat)
    requires Increasing(place, xs) && i < |xs|
    ensures place(xs[i]) <= place(xs[|xs| - 1])
    ensures place(xs[i]) == place(xs[|xs| - 1]) ==> xs[i] == xs[|xs| - 1]
  {
  }

  lemma SameLast<T>(place: T -> int, xs: seq<T>, ys: seq<T>)
    requires Increasing(place, xs) && Increasing(place, ys) && xs != [] && multiset(xs) == multiset(ys)
    ensures ys != [] && xs[|xs| - 1] == ys[|ys| - 1]
  {
    assert |multiset(xs)| == |xs| && |multiset(ys)| == |ys|;
    assert xs[|xs| - 1] in multiset(ys) && ys[|ys| - 1] in multiset(xs);
    var i :| 0 <= i < |ys| && ys[i] == xs[|xs| - 1];
    var j :| 0 <= j < |xs| && xs[j] == ys[|ys| - 1];
    LastIsGreatest(place, ys, i);
    LastIsGreatest(place, xs, j);
  }

  lemma Shorten<T>(place: T -> int, xs: seq<T>) returns (a: seq<T>)
    requires Increasing(place, xs) && xs != []
    ensures |a| == |xs| - 1 && xs == a + [xs[|xs| - 1]]
    ensures Increasing(place, a) && multiset(a) == multiset(xs) - multiset{xs[|xs| - 1]}
  {
    a := xs[..|xs| - 1];
    assert xs == a + [xs[|xs| - 1]];
  }

  /** Increasing lists with the same members are the same. */
  lemma {:induction false} IncreasingIsUnique<T>(place: T -> int, xs: seq<T>, ys: seq<T>)
    requires Increasing(place, xs) && Increasing(place, ys) && multiset(xs) == multiset(ys)
    ensures xs == ys
    decreases |xs|
  {
    if xs == [] {
      assert |multiset(ys)| == 0;
    } else {
      SameLast(place, xs, ys);
      var a := Shorten(place, xs);
      var b := Shorten(place, ys);
      IncreasingIsUnique(place, a, b);
    }
  }

  /** Any two neighbours of the parent come in the same order by their first rows in the
      stream and by the first rows they share with the parent. */
  ghost predicate SameFirstOrder<N(!new)>(id: N -> int, ls: seq<Link<N>>, out: int) {
    forall x, y :: Related(id, ls, out, x) && Related(id, ls, out, y) ==>
      (FirstAt(id, ls, x) < FirstAt(id, ls, y) <==> OwnAt(id, ls, out, x) < OwnAt(id, ls, out, y))
  }

  lemma LoadedIncreases<N(!new)>(id: N -> int, ls: seq<Link<N>>, out: int)
    ensures Increasing(x => FirstAt(id, ls, x), IdsOf(id, Loaded(id, ls, out)))
  {
    FirstsIncrease(id, ls);
    FilteredIncrease(x => FirstAt(id, ls, x), id, ls, out, Firsts(id, ls));
  }

  lemma SameOrderIfFirsts<N(!new)>(id: N -> int, ls: seq<Link<N>>, out: int)
    requires SameFirstOrder(id, ls, out)
    ensures IdsOf(id, Loaded(id, ls, out)) == IdsOf(id, Naive(id, ls, out))
  {
    var first := (x: int) => FirstAt(id, ls, x);
    var loaded, naive := IdsOf(id, Loaded(id, ls, out)), IdsOf(id, Naive(id, ls, out));
    LoadedIncreases(id, ls, out);
    NaiveIncreases(id, ls, out);
    FirstsOnceEach(id, RowsOfParent(ls, out));
    LoadedAreTheNaiveOnes(id, ls, out);
    forall i, j | 0 <= i < j < |naive|
      ensures first(naive[i]) < first(naive[j])
    {
      assert naive[i] in naive && naive[j] in naive;
      RowsOfParentAppear(id, ls, out, naive[i]);
      RowsOfParentAppear(id, ls, out, naive[j]);
      assert OwnAt(id, ls, out, naive[i]) < OwnAt(id, ls, out, naive[j]);
    }
    IncreasingIsUnique(first, loaded, naive);
  }

  lemma BothIncrease<T>(f: T -> int, g: T -> int, xs: seq<T>, x: T, y: T)
    requires Increasing(f, xs) && Increasing(g, xs) && x in xs && y in xs
    ensures f(x) < f(y) <==> g(x) < g(y)
  {
    var i :| 0 <= i < |xs| && xs[i] == x;
    var j :| 0 <= j < |xs| && xs[j] == y;
  }

  lemma FirstsIfSameOrder<N(!new)>(id: N -> int, ls: seq<Link<N>>, out: int)
    requires IdsOf(id, Loaded(id, ls, out)) == IdsOf(id, Naive(id, ls, out))
    ensures SameFirstOrder(id, ls, out)
  {
    var first, own := (x: int) => FirstAt(id, ls, x), (x: int) => OwnAt(id, ls, out, x);
    var xs := IdsOf(id, Loaded(id, ls, out));
    LoadedIncreases(id, ls, out);
    NaiveIncreases(id, ls, out);
    LoadedOnceEach(id, ls, out);
    assert Increasing(first, xs) && Increasing(own, xs);
    forall x, y | Related(id, ls, out, x) && Related(id, ls, out, y)
      ensures FirstAt(id, ls, x) < FirstAt(id, ls, y) <==> OwnAt(id, ls, out, x) < OwnAt(id, ls, out, y)
    {
      assert x in xs && y in xs;
      BothIncrease(first, own, xs, x, y);
    }
  }

  /** Exactly then the loaded neighbours come in the order of the parent's own rows. */
  lemma OrdersAgreeExactly<N(!new)>(id: N -> int, ls: seq<Link<N>>, out: int)
    ensures IdsOf(id, Loaded(id, ls, out)) == IdsOf(id, Naive(id, ls, out)) <==> SameFirstOrder(id, ls, out)
  {
    if SameFirstOrder(id, ls, out) {
      SameOrderIfFirsts(id, ls, out);
    }
    if IdsOf(id, Loaded(id, ls, out)) == IdsOf(id, Naive(id, ls, out)) {
      FirstsIfSameOrder(id, ls, out);
    }
  }

  /** The rows of each neighbour stand together, as after ORDER BY the neighbour's id. */
  ghost predicate Grouped<N(!new)>(id: N -> int, ls: seq<Link<N>>) {
    forall i, j, k :: 0 <= i < j < k < |ls| && id(ls[i].node) == id(ls[k].node) ==> id(ls[j].node) == id(ls[i].node)
  }

  /** If one group starts before another, all of it comes before all of the other. */
  lemma GroupsDoNotCross<N(!new)>(id: N -> int, ls: seq<Link<N>>, x0: int, y0: int, x: int, y: int)
    requires Grouped(id, ls) && 0 <= x0 < y0 <= y < |ls| && x0 <= x < |ls|
    requires id(ls[x0].node) == id(ls[x].node) && id(ls[y0].node) == id(ls[y].node) && id(ls[x].node) != id(ls[y].node)
    ensures x < y
  {
  }

  lemma GroupedPair<N(!new)>(id: N -> int, ls: seq<Link<N>>, out: int, x: int, y: int)
    requires Grouped(id, ls) && Related(id, ls, out, x) && Related(id, ls, out, y)
    requires FirstAt(id, ls, x) < FirstAt(id, ls, y)
    ensures OwnAt(id, ls, out, x) < OwnAt(id, ls, out, y)
  {
    FirstAtIs(id, ls, x);
    FirstAtIs(id, ls, y);
    OwnAtIs(id, ls, out, x);
    OwnAtIs(id, ls, out, y);
    GroupsDoNotCross(id, ls, FirstAt(id, ls, x), FirstAt(id, ls, y), OwnAt(id, ls, out, x), OwnAt(id, ls, out, y));
  }

  /** Different neighbours have different first rows. */
  lemma FirstAtInjective<N(!new)>(id: N -> int, ls: seq<Link<N>>, x: int, y: int)
    requires Appears(id, ls, x) && Appears(id, ls, y) && FirstAt(id, ls, x) == FirstAt(id, ls, y)
    ensures x == y
  {
    FirstAtIs(id, ls, x);
    FirstAtIs(id, ls, y);
  }

  /** In a grouped stream the orders agree for every parent. */
  lemma GroupedKeepsNaiveOrder<N(!new)>(id: N -> int, ls: seq<Link<N>>, out: int)
    requires Grouped(id, ls)
    ensures IdsOf(id, Loaded(id, ls, out)) == IdsOf(id, Naive(id, ls, out))
  {
    forall x, y | Related(id, ls, out, x) && Related(id, ls, out, y)
      ensures FirstAt(id, ls, x) < FirstAt(id, ls, y) <==> OwnAt(id, ls, out, x) < OwnAt(id, ls, out, y)
    {
      assert Appears(id, ls, x) && Appears(id, ls, y);
      if FirstAt(id, ls, x) < FirstAt(id, ls, y) {
        GroupedPair(id, ls, out, x, y);
      } else if FirstAt(id, ls, y) < FirstAt(id, ls, x) {
        GroupedPair(id, ls, out, y, x);
      } else {
        FirstAtInjective(id, ls, x, y);
      }
    }
    OrdersAgreeExactly(id, ls, out);
  }

  // ---- Both sides of the relation ----

  /** The stream of one side: exactly the links of the relation whose parent was loaded and
      whose neighbour the query returns. */
  ghost predicate StreamOf<N(!new)>(
    id: N -> int, rel: Relation.Rel, inverse: bool, parents: set<int>, returned: set<int>, ls: seq<Link<N>>)
  {
    forall out, x :: Related(id, ls, out, x) <==>
      out in parents && x in returned && Relation.Link(inverse, out, x) in rel
  }

  /** A component is loaded under an incident exactly when the incident is loaded under the
      component, whatever the orders of the two streams. */
  lemma LoadedFromBothSides<I(!new), C(!new)>(
    idI: I -> int, idC: C -> int, rel: Relation.Rel, incidents: set<int>, components: set<int>,
    ofIncidents: seq<Link<C>>, ofComponents: seq<Link<I>>, i: int, c: int)
    requires StreamOf(idC, rel, false, incidents, components, ofIncidents)
    requires StreamOf(idI, rel, true, components, incidents, ofComponents)
    ensures c in IdsOf(idC, Loaded(idC, ofIncidents, i)) <==> i in IdsOf(idI, Loaded(idI, ofComponents, c))
  {
    LoadedOnceEach(idC, ofIncidents, i);
    LoadedOnceEach(idI, ofComponents, c);
    assert Related(idC, ofIncidents, i, c) <==> Related(idI, ofComponents, c, i);
  }
}
