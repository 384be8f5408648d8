/** The lists `updateNearBy` (frontend/src/world/world.ts) builds, as values.
    The method visits every pair of positions i < j once, in order, and may
    push population[j] onto population[i]'s list and then population[i] onto
    population[j]'s. `Built` is the list one creature ends up with, written
    exactly as the loops produce it; `Linked` is the reference: the
    creatures related to it, in population order. With no duplicates in the
    population the two agree. */
module Proximity {
  import opened Basics
  import opened Population

  /** A list the loops build by appending at the end. Kept apart from `seq`
      so that two lists are equal exactly when they are built alike. */
  datatype List<C> = Nil | Cons(head: C, tail: List<C>)

  function App<C>(xs: List<C>, ys: List<C>): List<C>
  {
    match xs
    case Nil => ys
    case Cons(h, t) => Cons(h, App(t, ys))
  }

  /** The elements of a list, in order. */
  function ToSeq<C>(xs: List<C>): seq<C>
  {
    match xs
    case Nil => []
    case Cons(h, t) => [h] + ToSeq(t)
  }

  lemma {:induction false} AppNil<C>(xs: List<C>)
    ensures App(xs, Nil) == xs
  {
    match xs
    case Nil =>
    case Cons(h, t) => AppNil(t);
  }

  lemma {:induction false} AppAssoc<C>(xs: List<C>, ys: List<C>, zs: List<C>)
    ensures App(App(xs, ys), zs) == App(xs, App(ys, zs))
  {
    match xs
    case Nil =>
    case Cons(h, t) => AppAssoc(t, ys, zs);
  }

  /** Appending lists appends their elements. */
  lemma {:induction false} ToSeqApp<C>(xs: List<C>, ys: List<C>)
    ensures ToSeq(App(xs, ys)) == ToSeq(xs) + ToSeq(ys)
  {
    match xs
    case Nil =>
      assert [] + ToSeq(ys) == ToSeq(ys);
    case Cons(h, t) =>
      ToSeqApp(t, ys);
      Regroup([h], ToSeq(t), ToSeq(ys));
  }

  /** What pair (i, j), i < j, appends to c's list: population[j] if c is
      population[i] and i relates to j, then population[i] if c is
      population[j] and j relates to i. */
  function Contrib<C(==)>(pop: seq<C>, R: (nat, nat) -> bool, c: C, i: nat, j: nat): (r: List<C>)
    requires i < |pop| && j < |pop|
    ensures r.Cons? ==> r.tail.Nil? || r.tail.tail.Nil?
    ensures pop[i] != c && pop[j] != c ==> r == Nil
  {
    if pop[i] == c && R(i, j) then
      if pop[j] == c && R(j, i) then Cons(pop[j], Cons(pop[i], Nil)) else Cons(pop[j], Nil)
    else if pop[j] == c && R(j, i) then Cons(pop[i], Nil)
    else Nil
  }

  /** The elements pair (i, j) appends to c's list, push by push. */
  lemma ContribSeq<C>(pop: seq<C>, R: (nat, nat) -> bool, c: C, i: nat, j: nat)
    requires i < |pop| && j < |pop|
    ensures ToSeq(Contrib(pop, R, c, i, j)) ==
      if pop[i] == c && R(i, j) then
        if pop[j] == c && R(j, i) then [pop[j], pop[i]] else [pop[j]]
      else if pop[j] == c && R(j, i) then [pop[i]]
      else []
  {
    if pop[i] == c && R(i, j) && pop[j] == c && R(j, i) {
      assert ToSeq(Cons(pop[i], Nil)) == [pop[i]];
    }
  }

  /** What the inner loop for outer index i has appended to c's list once it
      has reached j. */
  function Row<C(==)>(pop: seq<C>, R: (nat, nat) -> bool, c: C, i: nat, j: nat): (r: List<C>)
    requires i < |pop| && j <= |pop|
    ensures c !in pop ==> r == Nil
    decreases j
  {
    if j <= i + 1 then Nil else App(Row(pop, R, c, i, j - 1), Contrib(pop, R, c, i, j - 1))
  }

  /** c's list once the outer loop has finished every index below i. */
  function Rows<C(==)>(pop: seq<C>, R: (nat, nat) -> bool, c: C, i: nat): (r: List<C>)
    requires i <= |pop|
    ensures c !in pop ==> r == Nil
  {
    if i == 0 then Nil else App(Rows(pop, R, c, i - 1), Row(pop, R, c, i - 1, |pop|))
  }

  /** c's list when `updateNearBy` returns (it starts from the empty list). */
  function Built<C(==)>(pop: seq<C>, R: (nat, nat) -> bool, c: C): (r: List<C>)
    ensures c !in pop ==> r == Nil
  {
    Rows(pop, R, c, |pop|)
  }

  /** c's list once the loops have reached pair (i, j). */
  function Partial<C(==)>(pop: seq<C>, R: (nat, nat) -> bool, c: C, i: nat, j: nat): List<C>
    requires i < |pop| && j <= |pop|
  {
    App(Rows(pop, R, c, i), Row(pop, R, c, i, j))
  }

  /** The inner loop starts from what the earlier rows built. */
  lemma PartialStart<C>(pop: seq<C>, R: (nat, nat) -> bool, c: C, i: nat)
    requires i < |pop|
    ensures Partial(pop, R, c, i, i + 1) == Rows(pop, R, c, i)
  {
    AppNil(Rows(pop, R, c, i));
  }

  /** Pair (i, j) appends its contribution. */
  lemma PartialNext<C>(pop: seq<C>, R: (nat, nat) -> bool, c: C, i: nat, j: nat)
    requires i < j < |pop|
    ensures Partial(pop, R, c, i, j + 1) == App(Partial(pop, R, c, i, j), Contrib(pop, R, c, i, j))
  {
    AppAssoc(Rows(pop, R, c, i), Row(pop, R, c, i, j), Contrib(pop, R, c, i, j));
  }

  /** A finished row completes the rows up to i + 1. */
  lemma PartialDone<C>(pop: seq<C>, R: (nat, nat) -> bool, c: C, i: nat)
    requires i < |pop|
    ensures Partial(pop, R, c, i, |pop|) == Rows(pop, R, c, i + 1)
  {
  }

  /** The members' lists, one per position from `from` on, once the outer
      loop has finished the indices below i. */
  function AllRows<C(==)>(pop: seq<C>, R: (nat, nat) -> bool, i: nat, from: nat := 0): List<seq<C>>
    requires i <= |pop|
    decreases |pop| - from
  {
    if from >= |pop| then Nil
    else Cons(ToSeq(Rows(pop, R, pop[from], i)), AllRows(pop, R, i, from + 1))
  }

  /** The members' lists, from position `from` on, once the loops have
      reached pair (i, j). */
  function AllPartial<C(==)>(pop: seq<C>, R: (nat, nat) -> bool, i: nat, j: nat, from: nat := 0): List<seq<C>>
    requires i < |pop| && j <= |pop|
    decreases |pop| - from
  {
    if from >= |pop| then Nil
    else Cons(ToSeq(Partial(pop, R, pop[from], i, j)), AllPartial(pop, R, i, j, from + 1))
  }

  /** The lists L of the positions from `from` on, after pair (i, j) has
      appended its contribution to each. */
  function Extend<C(==)>(L: List<seq<C>>, pop: seq<C>, R: (nat, nat) -> bool, i: nat, j: nat, from: nat := 0): List<seq<C>>
    requires i < |pop| && j < |pop|
  {
    match L
    case Nil => Nil
    case Cons(h, t) =>
      Cons(if from < |pop| then h + ToSeq(Contrib(pop, R, pop[from], i, j)) else h, Extend(t, pop, R, i, j, from + 1))
  }

  function Len<T>(xs: List<T>): nat
  {
    match xs
    case Nil => 0
    case Cons(_, t) => 1 + Len(t)
  }

  /** The element at position k. */
  function Nth<T>(xs: List<T>, k: nat): T
    requires k < Len(xs)
  {
    if k == 0 then xs.head else Nth(xs.tail, k - 1)
  }

  /** Two lists with the same elements at every position are equal. */
  lemma {:induction false} ListExt<T>(xs: List<T>, ys: List<T>)
    requires Len(xs) == Len(ys)
    requires forall k: nat :: k < Len(xs) ==> Nth(xs, k) == Nth(ys, k)
    ensures xs == ys
  {
    if xs.Cons? {
      assert Nth(xs, 0) == Nth(ys, 0);
      forall k: nat | k < Len(xs.tail)
        ensures Nth(xs.tail, k) == Nth(ys.tail, k)
      {
        assert Nth(xs, k + 1) == Nth(ys, k + 1);
      }
      ListExt(xs.tail, ys.tail);
    }
  }

  /** Position k of `AllRows` is population[k]'s list. */
  lemma {:induction false} AllRowsAt<C>(pop: seq<C>, R: (nat, nat) -> bool, i: nat, from: nat, k: nat)
    requires i <= |pop| && from <= k < |pop|
    ensures Len(AllRows(pop, R, i, from)) == |pop| - from
    ensures Nth(AllRows(pop, R, i, from), k - from) == ToSeq(Rows(pop, R, pop[k], i))
    decreases |pop| - from
  {
    if from < k {
      AllRowsAt(pop, R, i, from + 1, k);
    } else if from + 1 < |pop| {
      AllRowsAt(pop, R, i, from + 1, from + 1);
    }
  }

  /** Position k of `Extend(L, ...)` is L's k-th list with pair (i, j)'s
      contribution to population[k] appended. */
  lemma {:induction false} ExtendAt<C>(L: List<seq<C>>, pop: seq<C>, R: (nat, nat) -> bool, i: nat, j: nat, from: nat, k: nat)
    requires i < |pop| && j < |pop| && from <= k < |pop| && Len(L) == |pop| - from
    ensures Len(Extend(L, pop, R, i, j, from)) == Len(L)
    ensures Nth(Extend(L, pop, R, i, j, from), k - from) == Nth(L, k - from) + ToSeq(Contrib(pop, R, pop[k], i, j))
    decreases Len(L)
  {
    if from < k {
      ExtendAt(L.tail, pop, R, i, j, from + 1, k);
    } else if from + 1 < |pop| {
      ExtendAt(L.tail, pop, R, i, j, from + 1, from + 1);
    }
  }

  lemma {:induction false} AllPartialStart<C>(pop: seq<C>, R: (nat, nat) -> bool, i: nat, from: nat := 0)
    requires i < |pop|
    ensures AllPartial(pop, R, i, i + 1, from) == AllRows(pop, R, i, from)
    decreases |pop| - from
  {
    if from < |pop| {
      PartialStart(pop, R, pop[from], i);
      AllPartialStart(pop, R, i, from + 1);
    }
  }

  lemma {:induction false} AllPartialNext<C>(pop: seq<C>, R: (nat, nat) -> bool, i: nat, j: nat, from: nat := 0)
    requires i < j < |pop|
    ensures AllPartial(pop, R, i, j + 1, from) == Extend(AllPartial(pop, R, i, j, from), pop, R, i, j, from)
    decreases |pop| - from
  {
    if from < |pop| {
      PartialNext(pop, R, pop[from], i, j);
      ToSeqApp(Partial(pop, R, pop[from], i, j), Contrib(pop, R, pop[from], i, j));
      AllPartialNext(pop, R, i, j, from + 1);
    }
  }

  lemma {:induction false} AllPartialDone<C>(pop: seq<C>, R: (nat, nat) -> bool, i: nat, from: nat := 0)
    requires i < |pop|
    ensures AllPartial(pop, R, i, |pop|, from) == AllRows(pop, R, i + 1, from)
    decreases |pop| - from
  {
    if from < |pop| {
      PartialDone(pop, R, pop[from], i);
      AllPartialDone(pop, R, i, from + 1);
    }
  }

  /** What position b adds to a's reference list: population[b] when b is
      another position that a relates to. */
  function Pick<C>(pop: seq<C>, R: (nat, nat) -> bool, a: nat, b: nat): List<C>
    requires b < |pop|
  {
    if b != a && R(a, b) then Cons(pop[b], Nil) else Nil
  }

  /** The reference list of the creature at position a: every population[b]
      with lo <= b < hi, b != a and R(a, b), in index order. */
  function Linked<C>(pop: seq<C>, R: (nat, nat) -> bool, a: nat, lo: nat, hi: nat): List<C>
    requires hi <= |pop|
    decreases hi
  {
    if hi <= lo then Nil
    else App(Linked(pop, R, a, lo, hi - 1), Pick(pop, R, a, hi - 1))
  }

  /** The members of the reference list are exactly the related creatures. */
  lemma {:induction false} LinkedHas<C>(pop: seq<C>, R: (nat, nat) -> bool, a: nat, lo: nat, hi: nat, x: C)
    requires hi <= |pop|
    ensures x in ToSeq(Linked(pop, R, a, lo, hi)) <==> exists b :: lo <= b < hi && b != a && R(a, b) && pop[b] == x
    decreases hi
  {
    if hi > lo {
      LinkedHas(pop, R, a, lo, hi - 1, x);
      ToSeqApp(Linked(pop, R, a, lo, hi - 1), Pick(pop, R, a, hi - 1));
      if x in ToSeq(Linked(pop, R, a, lo, hi)) && x !in ToSeq(Linked(pop, R, a, lo, hi - 1)) {
        assert x in ToSeq(Pick(pop, R, a, hi - 1));
        assert hi - 1 != a && R(a, hi - 1) && pop[hi - 1] == x;
      }
    }
  }

  lemma {:induction false} LinkedSplit<C>(pop: seq<C>, R: (nat, nat) -> bool, a: nat, lo: nat, mid: nat, hi: nat)
    requires lo <= mid <= hi <= |pop|
    ensures App(Linked(pop, R, a, lo, mid), Linked(pop, R, a, mid, hi)) == Linked(pop, R, a, lo, hi)
    decreases hi
  {
    if hi > mid {
      LinkedSplit(pop, R, a, lo, mid, hi - 1);
      AppAssoc(Linked(pop, R, a, lo, mid), Linked(pop, R, a, mid, hi - 1), Pick(pop, R, a, hi - 1));
    } else {
      AppNil(Linked(pop, R, a, lo, mid));
    }
  }

  /** No other position holds the creature at position a. */
  predicate Alone<C(==)>(pop: seq<C>, a: nat)
  {
    a < |pop| && forall j :: 0 <= j < |pop| && j != a ==> pop[j] != pop[a]
  }

  /** Outer rows before a: the only push onto population[a]'s list is
      population[i] itself, when a relates to i. */
  lemma {:induction false} RowBefore<C>(pop: seq<C>, R: (nat, nat) -> bool, a: nat, i: nat, j: nat)
    requires Alone(pop, a) && i < a && j <= |pop|
    ensures Row(pop, R, pop[a], i, j) == if a < j then Pick(pop, R, a, i) else Nil
    decreases j
  {
    if j > i + 1 {
      RowBefore(pop, R, a, i, j - 1);
      assert pop[i] != pop[a];
      if j - 1 == a {
        assert Contrib(pop, R, pop[a], i, j - 1) == Pick(pop, R, a, i);
      } else if j - 1 > a {
        assert pop[j - 1] != pop[a];
        AppNil(Pick(pop, R, a, i));
      } else {
        assert pop[j - 1] != pop[a];
      }
    }
  }

  /** The row of a itself pushes everything after a that a relates to. */
  lemma {:induction false} RowAt<C>(pop: seq<C>, R: (nat, nat) -> bool, a: nat, j: nat)
    requires Alone(pop, a) && j <= |pop|
    ensures Row(pop, R, pop[a], a, j) == Linked(pop, R, a, a + 1, j)
    decreases j
  {
    if j > a + 1 {
      RowAt(pop, R, a, j - 1);
      assert pop[j - 1] != pop[a];
      assert Contrib(pop, R, pop[a], a, j - 1) == Pick(pop, R, a, j - 1);
    }
  }

  /** Rows after a push nothing onto population[a]'s list. */
  lemma {:induction false} RowAfter<C>(pop: seq<C>, R: (nat, nat) -> bool, a: nat, i: nat, j: nat)
    requires Alone(pop, a) && a < i < |pop| && j <= |pop|
    ensures Row(pop, R, pop[a], i, j) == Nil
    decreases j
  {
    if j > i + 1 {
      RowAfter(pop, R, a, i, j - 1);
      assert pop[i] != pop[a] && pop[j - 1] != pop[a];
    }
  }

  /** Up to a's own row, population[a]'s list is the reference list so far. */
  lemma {:induction false} RowsBefore<C>(pop: seq<C>, R: (nat, nat) -> bool, a: nat, i: nat)
    requires Alone(pop, a) && i <= a
    ensures Rows(pop, R, pop[a], i) == Linked(pop, R, a, 0, i)
  {
    if i > 0 {
      RowsBefore(pop, R, a, i - 1);
      RowBefore(pop, R, a, i - 1, |pop|);
    }
  }

  /** a's own row completes population[a]'s list. */
  lemma {:induction false} RowsAt<C>(pop: seq<C>, R: (nat, nat) -> bool, a: nat)
    requires Alone(pop, a)
    ensures Rows(pop, R, pop[a], a + 1) == Linked(pop, R, a, 0, |pop|)
  {
    RowsBefore(pop, R, a, a);
    RowAt(pop, R, a, |pop|);
    AppNil(Linked(pop, R, a, 0, a));
    LinkedSplit(pop, R, a, 0, a + 1, |pop|);
  }

  /** A row after a leaves population[a]'s list as it was. */
  lemma RowsSkip<C>(pop: seq<C>, R: (nat, nat) -> bool, a: nat, i: nat)
    requires Alone(pop, a) && a < i < |pop|
    ensures Rows(pop, R, pop[a], i + 1) == Rows(pop, R, pop[a], i)
  {
    RowAfter(pop, R, a, i, |pop|);
    AppNil(Rows(pop, R, pop[a], i));
  }

  /** From a's own row on, population[a]'s list is the whole reference list. */
  lemma {:induction false} RowsAfter<C>(pop: seq<C>, R: (nat, nat) -> bool, a: nat, i: nat)
    requires Alone(pop, a) && a < i <= |pop|
    ensures Rows(pop, R, pop[a], i) == Linked(pop, R, a, 0, |pop|)
  {
    if i == a + 1 {
      RowsAt(pop, R, a);
    } else {
      RowsAfter(pop, R, a, i - 1);
      RowsSkip(pop, R, a, i - 1);
    }
  }

  /** With no duplicates, the list `updateNearBy` builds for population[a] is
      the reference list: the creatures a relates to, in population order. */
  lemma BuiltIsLinked<C>(pop: seq<C>, R: (nat, nat) -> bool, a: nat)
    requires Distinct(pop) && a < |pop|
    ensures Built(pop, R, pop[a]) == Linked(pop, R, a, 0, |pop|)
  {
    assert Alone(pop, a) by {
      forall j | 0 <= j < |pop| && j != a
        ensures pop[j] != pop[a]
      {
        if j < a {
          assert pop[j] != pop[a];
        } else {
          assert pop[a] != pop[j];
        }
      }
    }
    RowsAfter(pop, R, a, |pop|);
  }

  /** With no duplicates, no creature is in its own list and none is in a
      list twice. */
  lemma {:induction false} LinkedClean<C>(pop: seq<C>, R: (nat, nat) -> bool, a: nat, lo: nat, hi: nat)
    requires Distinct(pop) && a < |pop| && hi <= |pop|
    ensures pop[a] !in ToSeq(Linked(pop, R, a, lo, hi))
    ensures Distinct(ToSeq(Linked(pop, R, a, lo, hi)))
    decreases hi
  {
    if hi > lo {
      LinkedClean(pop, R, a, lo, hi - 1);
      var l := ToSeq(Linked(pop, R, a, lo, hi - 1));
      ToSeqApp(Linked(pop, R, a, lo, hi - 1), Pick(pop, R, a, hi - 1));
      if hi - 1 != a && R(a, hi - 1) {
        var x := pop[hi - 1];
        assert x !in l by {
          LinkedHas(pop, R, a, lo, hi - 1, x);
        }
        assert ToSeq(Pick(pop, R, a, hi - 1)) == [x];
        var r := l + [x];
        forall p, q | 0 <= p < q < |r| ensures r[p] != r[q] {
          if q == |l| { assert r[p] in l; }
        }
      } else {
        assert ToSeq(Linked(pop, R, a, lo, hi)) == l + [];
        assert l + [] == l;
      }
    }
  }

  /** What `updateNearBy` reads of a creature: its position (the origin
      without a body), its sensor size and its body. */
  datatype Probe = Probe(position: Vec3, sensor: real, body: Option<Body>)

  /** The "nearby" relation of positions a and b: the distance is computed
      once per pair, from the lower position to the higher, and compared with
      a's own sensor size only. */
  function Sees(P: seq<Probe>, dist: (Vec3, Vec3) -> real): (r: (nat, nat) -> bool)
    ensures forall a: nat, b: nat :: r(a, b) ==> a < |P| && b < |P|
  {
    (a: nat, b: nat) =>
      a < |P| && b < |P| &&
      (if a < b then dist(P[a].position, P[b].position) else dist(P[b].position, P[a].position)) < P[a].sensor
  }

  /** The "touching" relation: both bodies exist and the lower position's
      mesh intersects the higher one's. */
  function Touches(P: seq<Probe>, meets: (Body, Body) -> bool): (r: (nat, nat) -> bool)
    ensures forall a: nat, b: nat :: r(a, b) ==> a < |P| && b < |P| && P[a].body.Some? && P[b].body.Some?
  {
    (a: nat, b: nat) =>
      a < |P| && b < |P| && P[a].body.Some? && P[b].body.Some? &&
      (if a < b then meets(P[a].body.value, P[b].body.value) else meets(P[b].body.value, P[a].body.value))
  }

  /** population[b] is near population[a] iff they are different positions and
      their distance is below a's sensor size; b's sensor size plays no part. */
  lemma NearByExactly<C>(pop: seq<C>, P: seq<Probe>, dist: (Vec3, Vec3) -> real, a: nat, b: nat)
    requires Distinct(pop) && |P| == |pop| && a < |pop| && b < |pop|
    ensures pop[b] in ToSeq(Built(pop, Sees(P, dist), pop[a])) <==>
      a != b && (if a < b then dist(P[a].position, P[b].position) else dist(P[b].position, P[a].position)) < P[a].sensor
  {
    BuiltIsLinked(pop, Sees(P, dist), a);
    LinkedHas(pop, Sees(P, dist), a, 0, |pop|, pop[b]);
    if pop[b] in ToSeq(Built(pop, Sees(P, dist), pop[a])) {
      var b' :| 0 <= b' < |pop| && b' != a && Sees(P, dist)(a, b') && pop[b'] == pop[b];
      assert b' == b;
    }
  }

  /** Touching is symmetric, and holds exactly for two different positions
      whose bodies both exist and intersect. */
  lemma TouchingSymmetric<C>(pop: seq<C>, P: seq<Probe>, meets: (Body, Body) -> bool, a: nat, b: nat)
    requires Distinct(pop) && |P| == |pop| && a < |pop| && b < |pop|
    ensures pop[b] in ToSeq(Built(pop, Touches(P, meets), pop[a])) <==> pop[a] in ToSeq(Built(pop, Touches(P, meets), pop[b]))
    ensures pop[b] in ToSeq(Built(pop, Touches(P, meets), pop[a])) <==>
      a != b && P[a].body.Some? && P[b].body.Some? &&
      (if a < b then meets(P[a].body.value, P[b].body.value) else meets(P[b].body.value, P[a].body.value))
  {
    var T := Touches(P, meets);
    BuiltIsLinked(pop, T, a);
    BuiltIsLinked(pop, T, b);
    LinkedHas(pop, T, a, 0, |pop|, pop[b]);
    LinkedHas(pop, T, b, 0, |pop|, pop[a]);
    if pop[b] in ToSeq(Built(pop, T, pop[a])) {
      var b' :| 0 <= b' < |pop| && b' != a && T(a, b') && pop[b'] == pop[b];
      assert b' == b;
    }
    if pop[a] in ToSeq(Built(pop, T, pop[b])) {
      var a' :| 0 <= a' < |pop| && a' != b && T(b, a') && pop[a'] == pop[a];
      assert a' == a;
    }
  }

  /** Nearness is directional: a creature with sensor size 5 sees one 3 away
      that has sensor size 0, which does not see it back. */
  lemma NearByDirectional<C>(pop: seq<C>, p: Vec3, q: Vec3, dist: (Vec3, Vec3) -> real)
    requires |pop| == 2 && pop[0] != pop[1] && dist(p, q) == 3.0
    ensures var P := [Probe(p, 5.0, None), Probe(q, 0.0, None)];
      pop[1] in ToSeq(Built(pop, Sees(P, dist), pop[0])) && pop[0] !in ToSeq(Built(pop, Sees(P, dist), pop[1]))
  {
    var P := [Probe(p, 5.0, None), Probe(q, 0.0, None)];
    NearByExactly(pop, P, dist, 0, 1);
    NearByExactly(pop, P, dist, 1, 0);
  }
}
