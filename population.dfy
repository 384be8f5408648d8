/** The population array of a world (frontend/src/world/world.ts) as a value:
    what `destroy`'s `splice(indexOf(this), 1)` does to it
    (frontend/src/world/creature.ts), and the order in which
    `clearInhabitants` reaches creatures while that splice shortens the array
    under its loop. */
module Population {

  /** No element occurs twice. */
  predicate Distinct<T(==)>(s: seq<T>)
  {
    forall i, j :: 0 <= i < j < |s| ==> s[i] != s[j]
  }

  /** JavaScript's `indexOf`: the first position holding `x`, or -1. */
  function IndexOf<T(==)>(s: seq<T>, x: T): (r: int)
    ensures r == -1 <==> x !in s
    ensures r != -1 ==> 0 <= r < |s| && s[r] == x && forall j :: 0 <= j < r ==> s[j] != x
  {
    if s == [] then -1
    else if s[0] == x then 0
    else
      var k := IndexOf(s[1..], x);
      if k == -1 then -1 else k + 1
  }

  /** The position `splice(start, ...)` starts from: a negative start counts
      back from the end (and stops at 0), a start past the end is the end. */
  function SpliceStart(length: nat, start: int): (k: nat)
    ensures k <= length
    ensures 0 <= start <= length ==> k == start
    ensures -(length as int) <= start < 0 ==> k as int == (length as int) + start
  {
    if start < 0 then (if length + start < 0 then 0 else length + start)
    else if start > length then length
    else start
  }

  /** `array.splice(start, 1)`: at most one element goes, the one at the start
      position. */
  function SpliceOne<T>(s: seq<T>, start: int): (r: seq<T>)
    ensures SpliceStart(|s|, start) < |s| ==> |r| == |s| - 1
    ensures SpliceStart(|s|, start) == |s| ==> r == s
    ensures 0 <= start < |s| ==> r == s[..start] + s[start + 1..]
    ensures -|s| <= start < 0 ==> r == s[..|s| + start] + s[|s| + start + 1..]
  {
    var k := SpliceStart(|s|, start);
    if k < |s| then s[..k] + s[k + 1..] else s
  }

  /** What `destroy` leaves in the population: `splice(indexOf(x), 1)`. A
      member loses exactly its first occurrence; for a non-member indexOf is
      -1 and the LAST element goes instead; an empty array stays empty. */
  function SpliceOut<T(==)>(s: seq<T>, x: T): (r: seq<T>)
    ensures x in s ==> |r| == |s| - 1 && r == s[..IndexOf(s, x)] + s[IndexOf(s, x) + 1..]
    ensures x !in s && s != [] ==> r == s[..|s| - 1]
    ensures s == [] ==> r == []
    ensures forall y :: y in r ==> y in s
  {
    var i := IndexOf(s, x);
    assert x in s ==> s == s[..i] + [x] + s[i + 1..];
    SpliceOne(s, i)
  }

  /** On a member, `splice(indexOf(x), 1)` takes away exactly one copy of x
      and keeps every other element. */
  lemma SpliceOutOne<T>(s: seq<T>, x: T)
    requires x in s
    ensures multiset(SpliceOut(s, x)) == multiset(s) - multiset{x}
  {
    var i := IndexOf(s, x);
    assert s == s[..i] + [x] + s[i + 1..];
  }

  /** The creatures `clearInhabitants` destroys, in order, starting at index
      `i` of the current array: the loop reads `population[i]`, destroying it
      splices the array, and the index still advances by one. */
  function ClearLoop<T(==)>(s: seq<T>, i: nat): (r: seq<T>)
    ensures forall y :: y in r ==> y in s
    decreases |s|
  {
    if i < |s| then [s[i]] + ClearLoop(SpliceOut(s, s[i]), i + 1) else []
  }

  /** Concatenation regroups. */
  lemma Regroup<T>(a: seq<T>, b: seq<T>, c: seq<T>)
    ensures (a + b) + c == a + (b + c)
  {
  }

  /** One iteration of the `clearInhabitants` loop: the creature at i joins
      the destroyed ones and the loop goes on over the spliced array. */
  lemma ClearLoopStep<T>(done: seq<T>, s: seq<T>, i: nat)
    requires i < |s|
    ensures (done + [s[i]]) + ClearLoop(SpliceOut(s, s[i]), i + 1) == done + ClearLoop(s, i)
  {
    Regroup(done, [s[i]], ClearLoop(SpliceOut(s, s[i]), i + 1));
  }

  /** Once the index has run past the array, the destroyed ones are all. */
  lemma ClearLoopDone<T>(done: seq<T>, s: seq<T>, i: nat, all: seq<T>)
    requires i >= |s| && done + ClearLoop(s, i) == all
    ensures done == all
  {
    assert done + [] == done;
  }

  /** The elements at positions 0, 2, 4, ... */
  function Evens<T>(s: seq<T>): (r: seq<T>)
    ensures |r| == (|s| + 1) / 2
    ensures forall k :: 0 <= k < |r| ==> r[k] == s[2 * k]
  {
    if |s| <= 1 then s else [s[0]] + Evens(s[2..])
  }

  /** In an array without duplicates, `splice(indexOf(s[k]), 1)` removes
      position k and nothing else. */
  lemma {:induction false} SpliceOutAt<T>(s: seq<T>, k: nat)
    requires Distinct(s) && k < |s|
    ensures SpliceOut(s, s[k]) == s[..k] + s[k + 1..]
    ensures Distinct(s[..k] + s[k + 1..])
  {
    var i := IndexOf(s, s[k]);
    assert i == k;
    var t := s[..k] + s[k + 1..];
    forall a, b | 0 <= a < b < |t|
      ensures t[a] != t[b]
    {
      var a' := if a < k then a else a + 1;
      var b' := if b < k then b else b + 1;
      assert t[a] == s[a'] && t[b] == s[b'] && a' < b';
    }
  }

  /** Without duplicates, one iteration at i destroys s[i] and goes on over
      s without position i, which still has no duplicates. */
  lemma ClearLoopOne<T>(s: seq<T>, i: nat)
    requires Distinct(s) && i < |s|
    ensures ClearLoop(s, i) == [s[i]] + ClearLoop(s[..i] + s[i + 1..], i + 1)
    ensures Distinct(s[..i] + s[i + 1..])
  {
    SpliceOutAt(s, i);
  }

  /** Removing the first element of r from l + r. */
  lemma DropFirst<T>(l: seq<T>, r: seq<T>)
    requires r != []
    ensures (l + r)[..|l|] + (l + r)[|l| + 1..] == l + r[1..]
  {
    assert (l + r)[..|l|] == l;
    assert (l + r)[|l| + 1..] == r[1..];
  }

  /** Moving the boundary of l + r one element to the right. */
  lemma ShiftOne<T>(l: seq<T>, r: seq<T>)
    requires |r| >= 1
    ensures l + r == (l + [r[0]]) + r[1..]
  {
    assert r == [r[0]] + r[1..];
  }

  /** At the first position of r, the loop destroys r[0] and goes on over
      l + r[1..] from the next position. */
  lemma SkipStep<T>(l: seq<T>, r: seq<T>)
    requires Distinct(l + r) && r != []
    ensures ClearLoop(l + r, |l|) == [r[0]] + ClearLoop(l + r[1..], |l| + 1)
    ensures Distinct(l + r[1..])
  {
    ClearLoopOne(l + r, |l|);
    DropFirst(l, r);
  }

  /** Past the end of the array the loop destroys nothing. */
  lemma ClearLoopPast<T>(s: seq<T>, i: nat)
    requires i >= |s|
    ensures ClearLoop(s, i) == []
  {
  }

  /** A one-element tail: only that element is destroyed. */
  lemma SkipLast<T>(l: seq<T>, x: T)
    requires Distinct(l + [x])
    ensures ClearLoop(l + [x], |l|) == [x]
  {
    SkipStep(l, [x]);
    assert [x][1..] == [];
    assert l + [] == l;
    ClearLoopPast(l, |l| + 1);
    assert [x] + [] == [x];
  }

  /** With no duplicates, once `clearInhabitants` has reached position |L|,
      it destroys exactly every second creature of the rest R. */
  lemma {:induction false} ClearLoopSkips<T>(l: seq<T>, r: seq<T>)
    requires Distinct(l + r)
    ensures ClearLoop(l + r, |l|) == Evens(r)
    decreases |r|
  {
    if r == [] {
      ClearLoopPast(l + r, |l|);
    } else if |r| == 1 {
      assert r == [r[0]];
      SkipLast(l, r[0]);
    } else {
      SkipStep(l, r);
      ShiftOne(l, r[1..]);
      assert r[1..][0] == r[1] && r[1..][1..] == r[2..];
      ClearLoopSkips(l + [r[1]], r[2..]);
    }
  }

  /** `clearInhabitants` destroys only the creatures at the original positions
      0, 2, 4, ... when the population has no duplicates. */
  lemma ClearDestroysEvens<T>(s: seq<T>)
    requires Distinct(s)
    ensures ClearLoop(s, 0) == Evens(s)
  {
    assert [] + s == s;
    ClearLoopSkips([], s);
  }

  /** Two distinct members: the loop destroys the first and never reaches the
      second, which stays in the array until it is emptied. */
  lemma SecondSurvives<T>(x: T, y: T)
    requires x != y
    ensures ClearLoop([x, y], 0) == [x]
    ensures y !in ClearLoop([x, y], 0)
  {
  }
}
