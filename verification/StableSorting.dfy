/** `Array.prototype.sort` with a comparison: equal elements keep their order. */
module StableSorting {

  function StableSort<T(==)>(xs: seq<T>, before: (T, T) -> bool): (r: seq<T>)
    ensures multiset(r) == multiset(xs)
  {
    if xs == [] then []
    else
      assert xs == [xs[0]] + xs[1..];
      InsertStable(xs[0], StableSort(xs[1..], before), before)
  }

  function InsertStable<T(==)>(x: T, ys: seq<T>, before: (T, T) -> bool): (r: seq<T>)
    ensures multiset(r) == multiset(ys) + multiset{x}
  {
    if ys == [] || !before(ys[0], x) then [x] + ys
    else
      assert ys == [ys[0]] + ys[1..];
      [ys[0]] + InsertStable(x, ys[1..], before)
  }

  // ----- Weak orders -----

  predicate Tied<T>(a: T, b: T, before: (T, T) -> bool) { !before(a, b) && !before(b, a) }

  /** A comparison that may leave elements tied. */
  ghost predicate WeakOrder<T>(before: (T, T) -> bool, all: set<T>) {
    && (forall a :: a in all ==> !before(a, a))
    && (forall a, b, c :: a in all && b in all && c in all && before(a, b) && before(b, c) ==> before(a, c))
    && (forall a, b, c :: a in all && b in all && c in all && Tied(a, b, before) && Tied(b, c, before) ==>
          Tied(a, c, before))
  }

  ghost predicate From<T>(xs: seq<T>, all: set<T>) {
    forall i :: 0 <= i < |xs| ==> xs[i] in all
  }

  ghost predicate Ascends<T>(xs: seq<T>, before: (T, T) -> bool) {
    forall i, j :: 0 <= i < j < |xs| ==> !before(xs[j], xs[i])
  }

  lemma NotBeforeIsTransitive<T>(a: T, b: T, c: T, before: (T, T) -> bool, all: set<T>)
    requires WeakOrder(before, all) && a in all && b in all && c in all && !before(b, a) && !before(c, b)
    ensures !before(c, a)
  {
    assert before(a, b) || Tied(a, b, before);
    assert before(b, c) || Tied(b, c, before);
  }

  /** What does not come after the head of an ascending list does not come after any of it. */
  lemma HeadFirst<T>(x: T, ys: seq<T>, before: (T, T) -> bool, all: set<T>)
    requires WeakOrder(before, all) && x in all && From(ys, all) && Ascends(ys, before)
    requires ys != [] ==> !before(ys[0], x)
    ensures Ascends([x] + ys, before)
  {
    forall j | 0 <= j < |ys| ensures !before(ys[j], x) {
      if j > 0 {
        NotBeforeIsTransitive(x, ys[0], ys[j], before, all);
      }
    }
  }

  lemma {:induction false} InsertAscends<T>(x: T, ys: seq<T>, before: (T, T) -> bool, all: set<T>)
    requires WeakOrder(before, all) && x in all && From(ys, all) && Ascends(ys, before)
    ensures var r := InsertStable(x, ys, before);
            Ascends(r, before) && From(r, all) && (r[0] == x || (ys != [] && r[0] == ys[0]))
  {
    if ys != [] && before(ys[0], x) {
      InsertAscends(x, ys[1..], before, all);
      HeadFirst(ys[0], InsertStable(x, ys[1..], before), before, all);
    } else {
      HeadFirst(x, ys, before, all);
    }
  }

  lemma {:induction false} SortAscends<T>(xs: seq<T>, before: (T, T) -> bool, all: set<T>)
    requires WeakOrder(before, all) && From(xs, all)
    ensures Ascends(StableSort(xs, before), before) && From(StableSort(xs, before), all)
  {
    if xs != [] {
      SortAscends(xs[1..], before, all);
      InsertAscends(xs[0], StableSort(xs[1..], before), before, all);
    }
  }

  // ----- Stability -----

  /** The elements tied with `x`, in order. */
  function TiedWith<T>(xs: seq<T>, x: T, before: (T, T) -> bool): seq<T> {
    if xs == [] then [] else (if Tied(xs[0], x, before) then [xs[0]] else []) + TiedWith(xs[1..], x, before)
  }

  function TiedHead<T>(y: T, x: T, before: (T, T) -> bool): seq<T> { if Tied(y, x, before) then [y] else [] }

  lemma {:induction false} TiedWithCons<T>(y: T, ys: seq<T>, x: T, before: (T, T) -> bool)
    ensures TiedWith([y] + ys, x, before) == TiedHead(y, x, before) + TiedWith(ys, x, before)
  {
    assert ([y] + ys)[1..] == ys;
  }

  lemma Regroup<T>(a: seq<T>, b: seq<T>, c: seq<T>)
    ensures (a + b) + c == a + (b + c)
  {
  }

  lemma {:induction false} TiedWithConcat<T>(xs: seq<T>, ys: seq<T>, x: T, before: (T, T) -> bool)
    ensures TiedWith(xs + ys, x, before) == TiedWith(xs, x, before) + TiedWith(ys, x, before)
  {
    if xs == [] {
      assert xs + ys == ys;
    } else {
      TiedWithConcat(xs[1..], ys, x, before);
      TiedWithCons(xs[0], xs[1..], x, before);
      TiedWithCons(xs[0], xs[1..] + ys, x, before);
      assert [xs[0]] + xs[1..] == xs && [xs[0]] + (xs[1..] + ys) == xs + ys;
      Regroup(TiedHead(xs[0], x, before), TiedWith(xs[1..], x, before), TiedWith(ys, x, before));
    }
  }

  lemma {:induction false} InsertKeepsTies<T>(y: T, ys: seq<T>, x: T, before: (T, T) -> bool, all: set<T>)
    requires WeakOrder(before, all) && y in all && x in all && From(ys, all)
    ensures TiedWith(InsertStable(y, ys, before), x, before) == TiedWith([y] + ys, x, before)
  {
    if ys != [] && before(ys[0], y) {
      InsertKeepsTies(y, ys[1..], x, before, all);
      var rest := InsertStable(y, ys[1..], before);
      assert ([ys[0]] + rest)[1..] == rest;
      assert ([y] + ys)[1..] == ys && ([y] + ys[1..])[1..] == ys[1..];
      assert !Tied(ys[0], y, before);
    }
  }

  /** Elements that the comparison does not tell apart keep the order they came in. */
  lemma {:induction false} SortIsStable<T>(xs: seq<T>, x: T, before: (T, T) -> bool, all: set<T>)
    requires WeakOrder(before, all) && x in all && From(xs, all)
    ensures TiedWith(StableSort(xs, before), x, before) == TiedWith(xs, x, before)
  {
    if xs != [] {
      var rest := StableSort(xs[1..], before);
      SortIsStable(xs[1..], x, before, all);
      SortAscends(xs[1..], before, all);
      InsertKeepsTies(xs[0], rest, x, before, all);
      assert ([xs[0]] + rest)[1..] == rest;
    }
  }

  lemma TiedHeads<T>(a: seq<T>, b: seq<T>, before: (T, T) -> bool, all: set<T>)
    requires WeakOrder(before, all) && From(a, all) && From(b, all) && Ascends(a, before) && Ascends(b, before)
    requires a != [] && b != [] && a[0] in b && b[0] in a
    ensures Tied(a[0], b[0], before)
  {
    var i :| 0 <= i < |b| && b[i] == a[0];
    var j :| 0 <= j < |a| && a[j] == b[0];
    assert i > 0 ==> !before(b[i], b[0]);
    assert j > 0 ==> !before(a[j], a[0]);
  }

  /** An ascending list is determined by its elements and the order of its ties. */
  lemma {:induction false} TiesDetermine<T>(a: seq<T>, b: seq<T>, before: (T, T) -> bool, all: set<T>)
    requires WeakOrder(before, all) && From(a, all) && From(b, all) && Ascends(a, before) && Ascends(b, before)
    requires multiset(a) == multiset(b)
    requires forall x :: x in all ==> TiedWith(a, x, before) == TiedWith(b, x, before)
    ensures a == b
  {
    assert |a| == |multiset(a)| == |multiset(b)| == |b|;
    if a != [] {
      SameHeads(a, b, before, all);
      TailElements(a);
      TailElements(b);
      forall x | x in all ensures TiedWith(a[1..], x, before) == TiedWith(b[1..], x, before) {
        SameTail(a, b, x, before);
      }
      TiesDetermine(a[1..], b[1..], before, all);
    }
  }

  lemma TailElements<T>(a: seq<T>)
    requires a != []
    ensures multiset(a[1..]) == multiset(a) - multiset{a[0]}
  {
    assert a == [a[0]] + a[1..];
  }

  lemma {:induction false} SameHeads<T>(a: seq<T>, b: seq<T>, before: (T, T) -> bool, all: set<T>)
    requires WeakOrder(before, all) && From(a, all) && From(b, all) && Ascends(a, before) && Ascends(b, before)
    requires multiset(a) == multiset(b) && a != [] && b != []
    requires TiedWith(a, a[0], before) == TiedWith(b, a[0], before)
    ensures a[0] == b[0]
  {
    HeadIsElement(a, b);
    HeadIsElement(b, a);
    TiedHeads(a, b, before, all);
    TiedHeadComesFirst(a, a[0], before);
    TiedHeadComesFirst(b, a[0], before);
  }

  lemma HeadIsElement<T>(a: seq<T>, b: seq<T>)
    requires multiset(a) == multiset(b) && a != []
    ensures a[0] in b
  {
    assert a[0] in multiset(a);
  }

  lemma {:induction false} TiedHeadComesFirst<T>(xs: seq<T>, x: T, before: (T, T) -> bool)
    requires xs != [] && Tied(xs[0], x, before)
    ensures TiedWith(xs, x, before) != [] && TiedWith(xs, x, before)[0] == xs[0]
  {
  }

  lemma {:induction false} SameTail<T>(a: seq<T>, b: seq<T>, x: T, before: (T, T) -> bool)
    requires a != [] && b != [] && a[0] == b[0] && TiedWith(a, x, before) == TiedWith(b, x, before)
    ensures TiedWith(a[1..], x, before) == TiedWith(b[1..], x, before)
  {
    var p, q := TiedWith(a[1..], x, before), TiedWith(b[1..], x, before);
    if Tied(a[0], x, before) {
      assert TiedWith(a, x, before) == [a[0]] + p && TiedWith(b, x, before) == [b[0]] + q;
      assert ([a[0]] + p)[1..] == p && ([b[0]] + q)[1..] == q;
    } else {
      assert TiedWith(a, x, before) == p && TiedWith(b, x, before) == q;
    }
  }

  // ----- When the order of the input does not matter -----

  /** Elements that the comparison does not tell apart are equal. */
  ghost predicate TiesEqual<T>(xs: seq<T>, before: (T, T) -> bool) {
    forall i, j :: 0 <= i < |xs| && 0 <= j < |xs| && Tied(xs[i], xs[j], before) ==> xs[i] == xs[j]
  }

  lemma TiesEqualInAnyOrder<T>(xs: seq<T>, ys: seq<T>, before: (T, T) -> bool)
    requires multiset(xs) == multiset(ys) && TiesEqual(xs, before)
    ensures TiesEqual(ys, before)
  {
    forall i, j | 0 <= i < |ys| && 0 <= j < |ys| && Tied(ys[i], ys[j], before) ensures ys[i] == ys[j] {
      assert ys[i] in multiset(xs) && ys[j] in multiset(xs);
      var k :| 0 <= k < |xs| && xs[k] == ys[i];
      var l :| 0 <= l < |xs| && xs[l] == ys[j];
    }
  }

  lemma {:induction false} TiedCount<T>(xs: seq<T>, x: T, y: T, before: (T, T) -> bool)
    ensures multiset(TiedWith(xs, x, before))[y] == if Tied(y, x, before) then multiset(xs)[y] else 0
  {
    if xs != [] {
      TiedCount(xs[1..], x, y, before);
      assert xs == [xs[0]] + xs[1..];
    }
  }

  lemma {:induction false} AllAlike<T>(a: seq<T>, b: seq<T>)
    requires multiset(a) == multiset(b) && forall i, j :: 0 <= i < |a| && 0 <= j < |a| ==> a[i] == a[j]
    ensures a == b
  {
    assert |a| == |multiset(a)| == |multiset(b)| == |b|;
    forall k | 0 <= k < |b| ensures b[k] == a[k] {
      assert b[k] in multiset(a);
    }
  }

  lemma {:induction false} SameTiedPart<T(!new)>(xs: seq<T>, ys: seq<T>, x: T, before: (T, T) -> bool, all: set<T>)
    requires WeakOrder(before, all) && x in all && From(xs, all) && multiset(xs) == multiset(ys)
             && TiesEqual(xs, before)
    ensures TiedWith(xs, x, before) == TiedWith(ys, x, before)
  {
    var a, b := TiedWith(xs, x, before), TiedWith(ys, x, before);
    forall y ensures multiset(a)[y] == multiset(b)[y] {
      TiedCount(xs, x, y, before);
      TiedCount(ys, x, y, before);
    }
    assert multiset(a) == multiset(b);
    forall i, j | 0 <= i < |a| && 0 <= j < |a| ensures a[i] == a[j] {
      TiedInList(xs, x, a[i], before);
      TiedInList(xs, x, a[j], before);
      var k :| 0 <= k < |xs| && xs[k] == a[i];
      var l :| 0 <= l < |xs| && xs[l] == a[j];
      assert Tied(x, a[j], before);
    }
    AllAlike(a, b);
  }

  lemma {:induction false} TiedInList<T>(xs: seq<T>, x: T, y: T, before: (T, T) -> bool)
    requires y in TiedWith(xs, x, before)
    ensures y in xs && Tied(y, x, before)
  {
    TiedCount(xs, x, y, before);
    assert y in multiset(TiedWith(xs, x, before));
  }

  /** Two blocks in sequence may each come in any order when tied elements of one block are equal; ties between the
      blocks are decided by which block comes first. */
  lemma {:induction false} BlocksIgnoreOrder<T(!new)>(a: seq<T>, b: seq<T>, a2: seq<T>, b2: seq<T>, before: (T,
                                               T) -> bool, all: set<T>)
    requires WeakOrder(before, all) && From(a, all) && From(b, all)
    requires multiset(a) == multiset(a2) && multiset(b) == multiset(b2) && TiesEqual(a, before) && TiesEqual(b, before)
    ensures StableSort(a + b, before) == StableSort(a2 + b2, before)
  {
    SameFrom(a, a2, all);
    SameFrom(b, b2, all);
    SortAscends(a + b, before, all);
    SortAscends(a2 + b2, before, all);
    forall x | x in all
      ensures TiedWith(StableSort(a + b, before), x, before) == TiedWith(StableSort(a2 + b2, before), x, before)
    {
      SortIsStable(a + b, x, before, all);
      SortIsStable(a2 + b2, x, before, all);
      TiedWithConcat(a, b, x, before);
      TiedWithConcat(a2, b2, x, before);
      SameTiedPart(a, a2, x, before, all);
      SameTiedPart(b, b2, x, before, all);
    }
    TiesDetermine(StableSort(a + b, before), StableSort(a2 + b2, before), before, all);
  }

  lemma SameFrom<T>(xs: seq<T>, ys: seq<T>, all: set<T>)
    requires multiset(xs) == multiset(ys) && From(xs, all)
    ensures From(ys, all)
  {
    forall i | 0 <= i < |ys| ensures ys[i] in all {
      assert ys[i] in multiset(xs);
    }
  }

  /** Two tied elements that differ are left in the order they came in. */
  lemma {:induction false} SwapShows<T>(front: seq<T>, x: T, y: T, rest: seq<T>, before: (T, T) -> bool, all: set<T>)
    requires WeakOrder(before, all) && x in all && y in all && From(front, all) && From(rest, all)
    requires x != y && Tied(x, y, before)
    ensures StableSort(front + ([x, y] + rest), before) != StableSort(front + ([y, x] + rest), before)
  {
    var a, b := front + ([x, y] + rest), front + ([y, x] + rest);
    SortIsStable(a, x, before, all);
    SortIsStable(b, x, before, all);
    TiedAround(front, x, y, rest, x, before);
    TiedAround(front, y, x, rest, x, before);
    var f, r := TiedWith(front, x, before), TiedWith(rest, x, before);
    SwappedDiffer(f, x, y, r);
  }

  lemma SwappedDiffer<T>(f: seq<T>, x: T, y: T, r: seq<T>)
    requires x != y
    ensures f + ([x, y] + r) != f + ([y, x] + r)
  {
    assert (f + ([x, y] + r))[|f|] == x && (f + ([y, x] + r))[|f|] == y;
  }

  lemma {:induction false} TiedAround<T>(front: seq<T>, x: T, y: T, rest: seq<T>, z: T, before: (T, T) -> bool)
    requires Tied(x, z, before) && Tied(y, z, before)
    ensures TiedWith(front + ([x, y] + rest), z, before)
         == TiedWith(front, z, before) + ([x, y] + TiedWith(rest, z, before))
  {
    TiedWithConcat(front, [x, y] + rest, z, before);
    TiedWithConcat([x, y], rest, z, before);
    assert [x, y][1..] == [y] && [y][1..] == [];
    assert TiedWith([x, y], z, before) == [x, y];
  }

  lemma WithoutOne<T>(xs: seq<T>, k: nat) returns (rest: seq<T>)
    requires k < |xs|
    ensures rest == xs[..k] + xs[k + 1..] && multiset(xs) == multiset(rest) + multiset{xs[k]}
  {
    rest := xs[..k] + xs[k + 1..];
    assert xs == xs[..k] + ([xs[k]] + xs[k + 1..]);
  }

  /** A list with two of its elements first, in either order. */
  lemma FrontTwo<T>(xs: seq<T>, k: nat, l: nat) returns (rest: seq<T>)
    requires k < l < |xs|
    ensures multiset([xs[k], xs[l]] + rest) == multiset(xs) == multiset([xs[l], xs[k]] + rest)
  {
    var most := WithoutOne(xs, l);
    assert most[k] == xs[k];
    rest := WithoutOne(most, k);
    TwoFirst(xs[k], xs[l], rest);
    TwoFirst(xs[l], xs[k], rest);
  }

  lemma TwoFirst<T>(x: T, y: T, rest: seq<T>)
    ensures multiset([x, y] + rest) == multiset{x} + multiset{y} + multiset(rest)
  {
    assert multiset([x, y] + rest) == multiset([x, y]) + multiset(rest);
  }

  lemma DifferentTies<T>(xs: seq<T>, before: (T, T) -> bool) returns (k: nat, l: nat)
    requires !TiesEqual(xs, before)
    ensures k < l < |xs| && xs[k] != xs[l] && Tied(xs[k], xs[l], before)
  {
    var i, j :| 0 <= i < |xs| && 0 <= j < |xs| && Tied(xs[i], xs[j], before) && xs[i] != xs[j];
    k, l := if i < j then i else j, if i < j then j else i;
  }

  /** A block with tied elements that differ has two orders that are sorted differently, between any two lists. */
  lemma TiesShow<T>(front: seq<T>, xs: seq<T>, back: seq<T>, before: (T, T) -> bool, all: set<T>)
    returns (ys: seq<T>, zs: seq<T>)
    requires WeakOrder(before, all) && From(front, all) && From(xs, all) && From(back, all) && !TiesEqual(xs, before)
    ensures multiset(ys) == multiset(xs) == multiset(zs)
    ensures StableSort(front + (ys + back), before) != StableSort(front + (zs + back), before)
  {
    var k, l := DifferentTies(xs, before);
    var rest := FrontTwo(xs, k, l);
    ys, zs := [xs[k], xs[l]] + rest, [xs[l], xs[k]] + rest;
    SameFrom(xs, ys, all);
    assert rest == ys[2..];
    assert ys + back == [xs[k], xs[l]] + (rest + back) && zs + back == [xs[l], xs[k]] + (rest + back);
    SwapShows(front, xs[k], xs[l], rest + back, before, all);
  }

  // ----- Sorting what is shown -----

  function Mapped<T, U>(xs: seq<T>, f: T -> U): (r: seq<U>)
    ensures |r| == |xs| && forall i :: 0 <= i < |xs| ==> r[i] == f(xs[i])
  {
    seq(|xs|, i requires 0 <= i < |xs| => f(xs[i]))
  }

  lemma MappedCons<T, U>(x: T, xs: seq<T>, f: T -> U)
    ensures Mapped([x] + xs, f) == [f(x)] + Mapped(xs, f)
  {
  }

  lemma {:induction false} InsertMapped<T(!new), U>(x: T, ys: seq<T>, f: T -> U, before: (T, T) -> bool, after: (U,
                                          U) -> bool)
    requires forall a, b :: before(a, b) == after(f(a), f(b))
    ensures Mapped(InsertStable(x, ys, before), f) == InsertStable(f(x), Mapped(ys, f), after)
  {
    if ys != [] && before(ys[0], x) {
      InsertMapped(x, ys[1..], f, before, after);
      assert Mapped(ys, f)[1..] == Mapped(ys[1..], f);
      MappedCons(ys[0], InsertStable(x, ys[1..], before), f);
    } else {
      MappedCons(x, ys, f);
    }
  }

  lemma {:induction false} SortCons<T>(x: T, xs: seq<T>, before: (T, T) -> bool)
    ensures StableSort([x] + xs, before) == InsertStable(x, StableSort(xs, before), before)
  {
    assert ([x] + xs)[1..] == xs;
  }

  lemma SortedTail<T>(xs: seq<T>, before: (T, T) -> bool) returns (sorted: seq<T>)
    requires xs != []
    ensures sorted == StableSort(xs[1..], before) && StableSort(xs, before) == InsertStable(xs[0], sorted, before)
  {
    sorted := StableSort(xs[1..], before);
  }

  /** Sorting and then showing is showing and then sorting by what is shown. */
  lemma {:induction false} SortMapped<T(!new), U>(xs: seq<T>, f: T -> U, before: (T, T) -> bool, after: (U, U) -> bool)
    requires forall a, b :: before(a, b) == after(f(a), f(b))
    ensures Mapped(StableSort(xs, before), f) == StableSort(Mapped(xs, f), after)
  {
    if xs != [] {
      var sorted := SortedTail(xs, before);
      SortMapped(xs[1..], f, before, after);
      InsertMapped(xs[0], sorted, f, before, after);
      SortCons(f(xs[0]), Mapped(xs[1..], f), after);
      MappedCons(xs[0], xs[1..], f);
      assert [xs[0]] + xs[1..] == xs;
    }
  }

  lemma {:induction false} SameMapped<T, U>(xs: seq<T>, ys: seq<T>, f: T -> U)
    requires multiset(xs) == multiset(ys)
    ensures multiset(Mapped(xs, f)) == multiset(Mapped(ys, f))
  {
    if xs == [] {
      assert |ys| == |multiset(ys)| == 0;
    } else {
      var rest := WithoutHead(xs, ys, f);
      SameMapped(xs[1..], rest, f);
      MappedHead(xs, f);
    }
  }

  lemma MappedHead<T, U>(xs: seq<T>, f: T -> U)
    requires xs != []
    ensures multiset(Mapped(xs, f)) == multiset(Mapped(xs[1..], f)) + multiset{f(xs[0])}
  {
    MappedCons(xs[0], xs[1..], f);
    assert [xs[0]] + xs[1..] == xs;
  }

  /** A list without the head of another one with the same elements. */
  lemma WithoutHead<T, U>(xs: seq<T>, ys: seq<T>, f: T -> U) returns (rest: seq<T>)
    requires xs != [] && multiset(xs) == multiset(ys)
    ensures multiset(rest) == multiset(xs[1..])
    ensures multiset(Mapped(ys, f)) == multiset(Mapped(rest, f)) + multiset{f(xs[0])}
  {
    HeadIsElement(xs, ys);
    var k :| 0 <= k < |ys| && ys[k] == xs[0];
    rest := WithoutOne(ys, k);
    TailElements(xs);
    MappedWithoutOne(ys, k, f);
  }

  lemma MappedWithoutOne<T, U>(ys: seq<T>, k: nat, f: T -> U)
    requires k < |ys|
    ensures multiset(Mapped(ys, f)) == multiset(Mapped(ys[..k] + ys[k + 1..], f)) + multiset{f(ys[k])}
  {
    var rest := WithoutOne(Mapped(ys, f), k);
    assert rest == Mapped(ys[..k] + ys[k + 1..], f);
  }

  lemma MappedPair<T, U>(x: T, y: T, rest: seq<T>, f: T -> U) returns (shown: seq<U>)
    ensures shown == Mapped(rest, f) && Mapped([x, y] + rest, f) == [f(x), f(y)] + shown
  {
    shown := Mapped(rest, f);
  }

  lemma {:induction false} FirstTwoShow<T>(x: T, y: T, rest: seq<T>, before: (T, T) -> bool, all: set<T>)
    requires WeakOrder(before, all) && x in all && y in all && From(rest, all) && x != y && Tied(x, y, before)
    ensures StableSort([x, y] + rest, before) != StableSort([y, x] + rest, before)
  {
    SwapShows([], x, y, rest, before, all);
    assert [] + ([x, y] + rest) == [x, y] + rest && [] + ([y, x] + rest) == [y, x] + rest;
  }

  /** What is shown of a list with different things tied has two orders that are sorted differently. */
  lemma MappedTiesShow<T, U(!new)>(xs: seq<T>, f: T -> U, before: (U, U) -> bool, all: set<U>)
    returns (ys: seq<T>, zs: seq<T>)
    requires WeakOrder(before, all) && From(Mapped(xs, f), all) && !TiesEqual(Mapped(xs, f), before)
    ensures multiset(ys) == multiset(xs) == multiset(zs)
    ensures StableSort(Mapped(ys, f), before) != StableSort(Mapped(zs, f), before)
  {
    var k, l := DifferentTies(Mapped(xs, f), before);
    var rest := FrontTwo(xs, k, l);
    ys, zs := [xs[k], xs[l]] + rest, [xs[l], xs[k]] + rest;
    var shown := MappedPair(xs[k], xs[l], rest, f);
    var other := MappedPair(xs[l], xs[k], rest, f);
    SameMapped(xs, ys, f);
    SameFrom(Mapped(xs, f), Mapped(ys, f), all);
    assert shown == Mapped(ys, f)[2..];
    FirstTwoShow(f(xs[k]), f(xs[l]), shown, before, all);
  }
}
