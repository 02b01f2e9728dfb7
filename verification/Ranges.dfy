/**
 * The syncer's cache of pending headers (sync/ranges.go): lists of consecutive headers in ascending
 * order, with a gap between each two.
 */
module Ranges {
  import opened Headers

  // ---------------------------------------------------------------- lists of headers

  predicate Consecutive(hs: seq<Header>) {
    forall i | 0 <= i < |hs| :: hs[i].height == hs[0].height + i
  }

  predicate Ascending(hs: seq<Header>) {
    forall i, j | 0 <= i < j < |hs| :: hs[i].height < hs[j].height
  }

  function Last(hs: seq<Header>): Header
    requires hs != []
  {
    hs[|hs| - 1]
  }

  /** How many headers at the front are at or below a height. */
  function Count(hs: seq<Header>, end: nat): (n: nat)
    ensures n <= |hs| && (forall i | 0 <= i < n :: hs[i].height <= end) && (n < |hs| ==> hs[n].height > end)
  {
    if hs == [] || hs[0].height > end then 0
    else
      var n := Count(hs[1..], end);
      assert forall i | 0 < i < n + 1 :: hs[i] == hs[1..][i - 1];
      n + 1
  }

  function Above(hs: seq<Header>, end: nat): seq<Header> {
    hs[Count(hs, end)..]
  }

  // ---------------------------------------------------------------- all ranges as a value

  type Lists = seq<seq<Header>>

  function Flat(lists: Lists): seq<Header> {
    if lists == [] then [] else lists[0] + Flat(lists[1..])
  }

  predicate Gap(a: seq<Header>, b: seq<Header>) {
    a != [] && b != [] ==> Last(a).height + 1 < b[0].height
  }

  /** Ascending, disjoint, not adjacent; only the first range may be empty. */
  predicate Separated(lists: Lists) {
    && (forall i | 0 <= i < |lists| :: Consecutive(lists[i]))
    && (forall i | 0 < i < |lists| :: lists[i] != [])
    && (forall i, j | 0 <= i < j < |lists| :: Gap(lists[i], lists[j]))
  }

  /** ranges.head: the last header of the last range. */
  function HeadOf(lists: Lists): Option<Header> {
    if lists == [] || lists[|lists| - 1] == [] then None else Some(Last(lists[|lists| - 1]))
  }

  function AddTo(lists: Lists, h: Header): Lists {
    var head := HeadOf(lists);
    if head.None? then lists + [[h]]
    else if head.value.height >= h.height then lists
    else if h.height == head.value.height + 1 then lists[|lists| - 1 := lists[|lists| - 1] + [h]]
    else lists + [[h]]
  }

  function PruneTo(lists: Lists, height: nat): Lists {
    if lists == [] then []
    else if Above(lists[0], height) != [] then lists[0 := Above(lists[0], height)]
    else PruneTo(lists[1..], height)
  }

  function DropEmpty(lists: Lists): Lists {
    if lists == [] || lists[0] != [] then lists else DropEmpty(lists[1..])
  }

  lemma {:induction false} FlatConcat(a: Lists, b: Lists)
    ensures Flat(a + b) == Flat(a) + Flat(b)
  {
    if a == [] {
      assert a + b == b;
    } else {
      assert (a + b)[1..] == a[1..] + b;
      FlatConcat(a[1..], b);
    }
  }

  lemma FlatSnoc(lists: Lists, hs: seq<Header>)
    ensures Flat(lists + [hs]) == Flat(lists) + hs
  {
    FlatConcat(lists, [hs]);
    assert Flat([hs]) == hs + Flat([hs][1..]) == hs;
  }

  lemma {:induction false} FlatMember(lists: Lists, j: nat)
    requires j < |Flat(lists)|
    ensures exists a: nat, b: nat :: a < |lists| && b < |lists[a]| && lists[a][b] == Flat(lists)[j]
  {
    if j < |lists[0]| {
      assert lists[0][j] == Flat(lists)[j];
    } else {
      FlatMember(lists[1..], j - |lists[0]|);
      var a: nat, b: nat :| a < |lists[1..]| && b < |lists[1..][a]| && lists[1..][a][b] == Flat(lists[1..])[j - |lists[0]|];
      assert lists[a + 1][b] == Flat(lists)[j];
    }
  }

  lemma SeparatedTail(lists: Lists)
    requires Separated(lists) && lists != []
    ensures Separated(lists[1..])
  {
  }

  /** Taken together the ranges hold each height once, in order. */
  lemma {:induction false} FlatAscends(lists: Lists)
    requires Separated(lists)
    ensures Ascending(Flat(lists))
  {
    if lists != [] {
      SeparatedTail(lists);
      FlatAscends(lists[1..]);
      forall i, j | 0 <= i < |lists[0]| && 0 <= j < |Flat(lists[1..])| ensures lists[0][i].height < Flat(lists[1..])[j].height {
        FlatMember(lists[1..], j);
        var a: nat, b: nat :| a < |lists[1..]| && b < |lists[1..][a]| && lists[1..][a][b] == Flat(lists[1..])[j];
        assert Gap(lists[0], lists[a + 1]);
      }
    }
  }

  /** The head of the ranges is the highest header they hold. */
  lemma {:induction false} HeadIsTop(lists: Lists)
    requires Separated(lists)
    ensures HeadOf(lists) == if Flat(lists) == [] then None else Some(Last(Flat(lists)))
  {
    if lists != [] {
      var n := |lists| - 1;
      assert lists == lists[..n] + [lists[n]];
      FlatSnoc(lists[..n], lists[n]);
      if lists[n] == [] {
        assert n == 0 && lists[..n] == [];
      }
    }
  }

  /** A header above all others is added at the end; any other is dropped. */
  lemma AddAppends(lists: Lists, h: Header)
    requires Separated(lists)
    ensures Separated(AddTo(lists, h))
    ensures Flat(AddTo(lists, h))
            == if Flat(lists) == [] || Last(Flat(lists)).height < h.height then Flat(lists) + [h] else Flat(lists)
  {
    HeadIsTop(lists);
    FlatSnoc(lists, [h]);
    AddKeepsSeparated(lists, h);
    if HeadOf(lists).Some? {
      var n := |lists| - 1;
      assert lists == lists[..n] + [lists[n]] && lists[n := lists[n] + [h]] == lists[..n] + [lists[n] + [h]];
      FlatSnoc(lists[..n], lists[n]);
      FlatSnoc(lists[..n], lists[n] + [h]);
    }
  }

  lemma AddKeepsSeparated(lists: Lists, h: Header)
    requires Separated(lists)
    ensures Separated(AddTo(lists, h))
  {
    var head, out, n := HeadOf(lists), AddTo(lists, h), |lists| - 1;
    if head.None? {
      assert n <= 0;
    } else if head.value.height < h.height {
      forall i, j | 0 <= i < j < |out| ensures Gap(out[i], out[j]) {
        assert i <= n;
        assert i < n ==> Gap(lists[i], lists[n]);
        assert j < |lists| ==> Gap(lists[i], lists[j]);
      }
    }
  }

  /** Pruning drops exactly the headers at or below the height. */
  lemma {:induction false} PruneDropsExactly(lists: Lists, height: nat)
    ensures Flat(PruneTo(lists, height)) == Above(Flat(lists), height)
  {
    if lists != [] {
      AboveOfConcat(lists[0], Flat(lists[1..]), height);
      if Above(lists[0], height) != [] {
        assert lists[0 := Above(lists[0], height)][1..] == lists[1..];
      } else {
        PruneDropsExactly(lists[1..], height);
      }
    }
  }

  lemma AboveOfConcat(a: seq<Header>, b: seq<Header>, end: nat)
    ensures Above(a + b, end) == if Above(a, end) != [] then Above(a, end) + b else Above(b, end)
  {
    CountOfConcat(a, b, end);
  }

  lemma {:induction false} PruneKeepsSeparated(lists: Lists, height: nat)
    requires Separated(lists)
    ensures Separated(PruneTo(lists, height))
  {
    if lists != [] {
      SeparatedTail(lists);
      PruneKeepsSeparated(lists[1..], height);
      CutKeepsSeparated(lists, Above(lists[0], height));
    }
  }

  /** The first range may lose headers at its front. */
  lemma CutKeepsSeparated(lists: Lists, rest: seq<Header>)
    requires Separated(lists) && lists != [] && exists n: nat :: n <= |lists[0]| && rest == lists[0][n..]
    ensures Separated(lists[0 := rest])
  {
    var out := lists[0 := rest];
    forall i, j | 0 <= i < j < |out| ensures Gap(out[i], out[j]) {
      assert Gap(lists[i], lists[j]);
    }
  }

  lemma {:induction false} CountOfConcat(a: seq<Header>, b: seq<Header>, end: nat)
    ensures Count(a + b, end) == if Count(a, end) < |a| then Count(a, end) else |a| + Count(b, end)
  {
    if a == [] {
      assert a + b == b;
    } else {
      assert (a + b)[1..] == a[1..] + b;
      CountOfConcat(a[1..], b, end);
    }
  }

  lemma {:induction false} DropEmptyKeeps(lists: Lists)
    requires Separated(lists)
    ensures Separated(DropEmpty(lists)) && Flat(DropEmpty(lists)) == Flat(lists)
    ensures DropEmpty(lists) != [] ==> DropEmpty(lists)[0] != []
    ensures DropEmpty(lists) == [] <==> Flat(lists) == []
  {
    if lists != [] && lists[0] == [] {
      SeparatedTail(lists);
      DropEmptyKeeps(lists[1..]);
    }
  }

  /** In ascending headers, the ones at or below a height are exactly those at the front that are counted. */
  lemma CountSplits(hs: seq<Header>, end: nat, i: nat)
    requires Ascending(hs) && i < |hs|
    ensures hs[i].height <= end <==> i < Count(hs, end)
  {
    if Count(hs, end) < i {
      assert hs[Count(hs, end)].height < hs[i].height;
    }
  }

  /** The higher one of the last header and a height. */
  function Top(hs: seq<Header>, height: nat): nat {
    if hs != [] && Last(hs).height > height then Last(hs).height else height
  }

  lemma AboveKeepsTop(hs: seq<Header>, height: nat)
    ensures Top(Above(hs, height), height) == Top(hs, height)
  {
    if Above(hs, height) == [] && hs != [] {
      assert Last(hs).height <= height;
    }
  }

  // ---------------------------------------------------------------- one range

  class HeaderRange {
    var headers: seq<Header>
    var start: nat

    predicate Valid()
      reads this
    {
      Consecutive(headers) && (headers != [] ==> start == headers[0].height)
    }

    constructor (h: Header)
      ensures Valid() && headers == [h]
    {
      headers, start := [h], h.height;
    }

    method Append(h: Header)
      requires Valid() && headers != [] && h.height == Last(headers).height + 1
      modifies `headers
      ensures Valid() && headers == old(headers) + [h]
    {
      headers := headers + [h];
    }

    /** rangeAmount: by arithmetic on the start, without looking at the headers. */
    method RangeAmount(end: nat) returns (amnt: nat)
      requires Valid()
      ensures amnt == Count(headers, end)
    {
      if start > end {
        return 0;
      }
      amnt := |headers|;
      if start + amnt > end {
        amnt := end - start + 1;
      }
      assert amnt < |headers| ==> headers[amnt].height == start + amnt;
      assert amnt > 0 ==> headers[amnt - 1].height == start + amnt - 1;
    }

    method Get(end: nat) returns (hs: seq<Header>)
      requires Valid()
      ensures hs == headers[..Count(headers, end)]
    {
      var amnt := RangeAmount(end);
      hs := headers[..amnt];
    }

    method Remove(end: nat)
      requires Valid()
      modifies this
      ensures Valid() && headers == Above(old(headers), end)
    {
      var amnt := RangeAmount(end);
      headers := headers[amnt..];
      if |headers| != 0 {
        start := headers[0].height;
      }
    }
  }

  // ---------------------------------------------------------------- all ranges

  class Ranges {
    var ranges: seq<HeaderRange>

    ghost function Lists(): (lists: Lists)
      reads this, ranges
      ensures |lists| == |ranges|
    {
      seq(|ranges|, i requires 0 <= i < |ranges| reads this, ranges => ranges[i].headers)
    }

    ghost predicate Valid()
      reads this, ranges
    {
      && (forall i, j | 0 <= i < j < |ranges| :: ranges[i] != ranges[j])
      && (forall i | 0 <= i < |ranges| :: ranges[i].Valid())
      && Separated(Lists())
    }

    constructor ()
      ensures Valid() && Lists() == []
    {
      ranges := [];
    }

    method Head() returns (h: Option<Header>)
      requires Valid()
      ensures h == HeadOf(Lists())
    {
      var ln := |ranges|;
      if ln == 0 {
        return None;
      }
      var hs := ranges[ln - 1].headers;
      return if |hs| == 0 then None else Some(hs[|hs| - 1]);
    }

    method Add(h: Header)
      requires Valid()
      modifies this, ranges
      ensures Valid() && Lists() == AddTo(old(Lists()), h)
      ensures forall r | r in ranges :: r in old(ranges) || fresh(r)
    {
      AddKeepsSeparated(Lists(), h);
      var head := Head();
      if head.Some? && head.value.height >= h.height {
        return;
      }
      if head.Some? && h.height == head.value.height + 1 {
        ranges[|ranges| - 1].Append(h);
        assert Lists() == AddTo(old(Lists()), h);
      } else {
        var r := new HeaderRange(h);
        ranges := ranges + [r];
        assert Lists() == AddTo(old(Lists()), h);
      }
    }

    /** One turn of Prune: the first range loses the headers at or below the height. */
    method CutFirst(height: nat)
      requires Valid() && ranges != []
      modifies ranges[0]
      ensures Valid() && Lists()[1..] == old(Lists())[1..]
      ensures PruneTo(old(Lists()), height) == if Lists()[0] != [] then Lists() else PruneTo(Lists()[1..], height)
    {
      ghost var before := Lists();
      ranges[0].Remove(height);
      assert Lists() == before[0 := Above(before[0], height)];
      CutKeepsSeparated(before, Above(before[0], height));
    }

    method DropFirst()
      requires Valid() && ranges != []
      modifies this
      ensures Valid() && ranges == old(ranges)[1..] && Lists() == old(Lists())[1..]
    {
      SeparatedTail(Lists());
      ghost var before := Lists();
      ranges := ranges[1..];
      assert Lists() == before[1..];
    }

    method Prune(height: nat)
      requires Valid()
      modifies this, ranges
      ensures Valid() && Lists() == PruneTo(old(Lists()), height)
      ensures forall i | 0 <= i < |ranges| :: ranges[i] in old(ranges)
    {
      while |ranges| > 0
        invariant Valid() && forall i | 0 <= i < |ranges| :: ranges[i] in old(ranges)
        invariant PruneTo(Lists(), height) == PruneTo(old(Lists()), height)
        decreases |ranges|
      {
        assert ranges[0] in old(ranges);
        CutFirst(height);
        if |ranges[0].headers| != 0 {
          return;
        }
        DropFirst();
      }
    }

    method First() returns (out: Option<HeaderRange>)
      requires Valid()
      modifies this
      ensures Valid() && Lists() == DropEmpty(old(Lists())) && (forall i | 0 <= i < |ranges| :: ranges[i] in old(ranges))
      ensures out.Some? <==> ranges != []
      ensures out.Some? ==> out.value == ranges[0] && out.value.headers != []
    {
      while true
        invariant Valid() && (forall i | 0 <= i < |ranges| :: ranges[i] in old(ranges))
        invariant DropEmpty(Lists()) == DropEmpty(old(Lists()))
        decreases |ranges|
      {
        if |ranges| == 0 {
          return None;
        }
        if |ranges[0].headers| != 0 {
          assert Lists()[0] != [];
          return Some(ranges[0]);
        }
        DropFirst();
      }
    }
  }
}
