/** Sums of a weight over a list, and how edits of the list change them. */
module Sums {

  function Sum<T>(xs: seq<T>, f: T -> nat): nat {
    if xs == [] then 0 else f(xs[0]) + Sum(xs[1..], f)
  }

  lemma {:induction false} SumConcat<T>(xs: seq<T>, ys: seq<T>, f: T -> nat)
    ensures Sum(xs + ys, f) == Sum(xs, f) + Sum(ys, f)
  {
    if xs == [] {
      assert xs + ys == ys;
    } else {
      assert (xs + ys)[1..] == xs[1..] + ys;
      SumConcat(xs[1..], ys, f);
    }
  }

  lemma SumOne<T>(x: T, f: T -> nat)
    ensures Sum([x], f) == f(x)
  {
    assert Sum([x], f) == f(x) + Sum([x][1..], f);
  }

  lemma SumSnoc<T>(xs: seq<T>, x: T, f: T -> nat)
    ensures Sum(xs + [x], f) == Sum(xs, f) + f(x)
  {
    SumConcat(xs, [x], f);
    SumOne(x, f);
  }

  function Without<T>(xs: seq<T>, i: nat): seq<T>
    requires i < |xs|
  {
    xs[..i] + xs[i + 1..]
  }

  lemma SumAt<T>(xs: seq<T>, i: nat, f: T -> nat)
    requires i < |xs|
    ensures Sum(xs, f) == Sum(xs[..i], f) + f(xs[i]) + Sum(xs[i + 1..], f)
  {
    SumConcat(xs[..i], xs[i..], f);
    assert xs == xs[..i] + xs[i..];
  }

  lemma SumWithout<T>(xs: seq<T>, i: nat, f: T -> nat)
    requires i < |xs|
    ensures Sum(xs, f) == Sum(Without(xs, i), f) + f(xs[i])
  {
    SumAt(xs, i, f);
    SumConcat(xs[..i], xs[i + 1..], f);
  }

  lemma SumUpdate<T>(xs: seq<T>, i: nat, y: T, f: T -> nat)
    requires i < |xs|
    ensures Sum(xs[i := y], f) + f(xs[i]) == Sum(xs, f) + f(y)
  {
    SumAt(xs, i, f);
    SumAt(xs[i := y], i, f);
    assert xs[i := y][..i] == xs[..i] && xs[i := y][i + 1..] == xs[i + 1..];
  }

  /** The weight of one element is part of the sum. */
  lemma SumHas<T>(xs: seq<T>, i: nat, f: T -> nat)
    requires i < |xs|
    ensures f(xs[i]) <= Sum(xs, f)
  {
    SumAt(xs, i, f);
  }

  lemma SumHasTwo<T>(xs: seq<T>, i: nat, j: nat, f: T -> nat)
    requires i < j < |xs|
    ensures f(xs[i]) + f(xs[j]) <= Sum(xs, f)
  {
    SumAt(xs, j, f);
    SumHas(xs[..j], i, f);
  }

  /** A list and any rearrangement of it have the same sum. */
  lemma {:induction false} SumOfPermutation<T>(xs: seq<T>, ys: seq<T>, f: T -> nat)
    requires multiset(xs) == multiset(ys)
    ensures Sum(xs, f) == Sum(ys, f)
  {
    if xs == [] {
      assert |multiset(ys)| == 0;
      assert ys == [];
    } else {
      assert xs[0] in multiset(ys);
      var j :| 0 <= j < |ys| && ys[j] == xs[0];
      SumWithout(ys, j, f);
      assert ys == ys[..j] + [ys[j]] + ys[j + 1..];
      assert xs == [xs[0]] + xs[1..];
      assert multiset(Without(ys, j)) == multiset(ys) - multiset{ys[j]};
      SumOfPermutation(xs[1..], Without(ys, j), f);
    }
  }

  // ---------------------------------------------------------------- sorting

  ghost predicate SortedBy<T>(xs: seq<T>, key: T -> nat) {
    forall i, j | 0 <= i < j < |xs| :: key(xs[i]) <= key(xs[j])
  }

  /** Every list can be sorted by a key. */
  lemma {:induction false} SortedExists<T>(xs: seq<T>, key: T -> nat) returns (sorted: seq<T>)
    ensures multiset(sorted) == multiset(xs) && SortedBy(sorted, key)
  {
    if xs == [] {
      return [];
    }
    var rest := SortedExists(xs[1..], key);
    sorted := InsertedExists(rest, xs[0], key);
    assert xs == [xs[0]] + xs[1..];
  }

  lemma {:induction false} InsertedExists<T>(xs: seq<T>, x: T, key: T -> nat) returns (more: seq<T>)
    requires SortedBy(xs, key)
    ensures multiset(more) == multiset(xs) + multiset{x} && SortedBy(more, key)
    ensures forall y | y in more :: y == x || y in xs
  {
    if xs == [] || key(x) <= key(xs[0]) {
      PrependSorted(x, xs, key);
      return [x] + xs;
    }
    assert xs == [xs[0]] + xs[1..];
    var rest := InsertedExists(xs[1..], x, key);
    if rest != [] {
      assert rest[0] in rest;
    }
    PrependSorted(xs[0], rest, key);
    return [xs[0]] + rest;
  }

  lemma PrependSorted<T>(x: T, xs: seq<T>, key: T -> nat)
    requires SortedBy(xs, key) && (xs == [] || key(x) <= key(xs[0]))
    ensures SortedBy([x] + xs, key)
  {
    var all := [x] + xs;
    forall i, j | 0 <= i < j < |all| ensures key(all[i]) <= key(all[j]) {
      assert all[j] == xs[j - 1];
      if i > 0 {
        assert all[i] == xs[i - 1];
      }
    }
  }
}
