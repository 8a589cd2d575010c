/** Sets of integers kept as a sorted list of disjoint ranges (quic/rangeset.py). */
module RangeSets {
  import opened Common

  datatype Range = Range(start: int, stop: int)

  /** Ranges are non-empty, sorted and separated by at least one missing integer. */
  ghost predicate Canonical(rs: seq<Range>) {
    && (forall i :: 0 <= i < |rs| ==> rs[i].start < rs[i].stop)
    && (forall i, j :: 0 <= i < j < |rs| ==> rs[i].stop < rs[j].start)
  }

  ghost function Elements(rs: seq<Range>): set<int> {
    if rs == [] then {} else Span(rs[0].start, rs[0].stop) + Elements(rs[1..])
  }

  lemma {:induction false} ElementsAppend(a: seq<Range>, b: seq<Range>)
    ensures Elements(a + b) == Elements(a) + Elements(b)
  {
    if a == [] {
      assert a + b == b;
    } else {
      assert (a + b)[1..] == a[1..] + b;
      ElementsAppend(a[1..], b);
    }
  }

  lemma {:induction false} ElementsAt(rs: seq<Range>, x: int)
    ensures x in Elements(rs) <==> exists i :: 0 <= i < |rs| && rs[i].start <= x < rs[i].stop
  {
    if rs != [] {
      ElementsAt(rs[1..], x);
      assert rs == [rs[0]] + rs[1..];
    }
  }

  lemma SpliceCanonical(a: seq<Range>, r: Range, b: seq<Range>)
    requires Canonical(a) && Canonical(b) && r.start < r.stop
    requires |a| > 0 ==> a[|a| - 1].stop < r.start
    requires |b| > 0 ==> r.stop < b[0].start
    ensures Canonical(a + [r] + b)
  {
  }

  lemma SpliceElements(a: seq<Range>, r: Range, b: seq<Range>)
    ensures Elements(a + [r] + b) == Elements(a) + Span(r.start, r.stop) + Elements(b)
  {
    ElementsAppend(a + [r], b);
    ElementsAppend(a, [r]);
  }

  lemma SplitCanonical(rs: seq<Range>, i: nat)
    requires Canonical(rs) && i <= |rs|
    ensures Canonical(rs[..i]) && Canonical(rs[i..])
  {
  }

  lemma SplitElements(rs: seq<Range>, i: nat, k: nat)
    requires i <= k <= |rs|
    ensures Elements(rs) == Elements(rs[..i]) + Elements(rs[i..k]) + Elements(rs[k..])
  {
    assert rs == rs[..i] + rs[i..k] + rs[k..];
    ElementsAppend(rs[..i] + rs[i..k], rs[k..]);
    ElementsAppend(rs[..i], rs[i..k]);
  }

  lemma Bounded(rs: seq<Range>)
    requires Canonical(rs) && |rs| > 0
    ensures forall x | x in Elements(rs) :: rs[0].start <= x < rs[|rs| - 1].stop
  {
    forall x | x in Elements(rs)
      ensures rs[0].start <= x < rs[|rs| - 1].stop
    {
      ElementsAt(rs, x);
    }
  }

  /** The first range runs from the least element to the first gap after it. */
  lemma FirstRange(rs: seq<Range>)
    requires Canonical(rs) && |rs| > 0
    ensures rs[0].start in Elements(rs) && rs[0].stop == RunEnd(Elements(rs), rs[0].start)
    ensures forall x | x in Elements(rs) :: rs[0].start <= x
    ensures Canonical(rs[1..])
    ensures Elements(rs[1..]) == Elements(rs) - Span(rs[0].start, rs[0].stop)
    ensures forall x | x in Elements(rs[1..]) :: rs[0].stop < x
  {
    SplitCanonical(rs, 1);
    if |rs| > 1 { Bounded(rs[1..]); }
    RunEndUnique(Elements(rs), rs[0].start, rs[0].stop);
  }

  /** Equality of canonical lists is equality of the sets they stand for. */
  lemma {:induction false} CanonicalUnique(a: seq<Range>, b: seq<Range>)
    requires Canonical(a) && Canonical(b)
    ensures a == b <==> Elements(a) == Elements(b)
  {
    if Elements(a) == Elements(b) {
      if |a| == 0 {
        if |b| > 0 { FirstRange(b); }
      } else if |b| == 0 {
        FirstRange(a);
      } else {
        FirstRange(a);
        FirstRange(b);
        assert a[0] == b[0];
        CanonicalUnique(a[1..], b[1..]);
        assert a == [a[0]] + a[1..] && b == [b[0]] + b[1..];
      }
    }
  }

  /** Swallowing the next touching range extends the merged interval by exactly that range. */
  lemma MergeNext(was: seq<Range>, i: nat, k: nat, start: int, stop: int, added: set<int>)
    requires Canonical(was) && i < k < |was|
    requires start <= was[i].start && was[k].start <= stop
    requires Span(start, stop) == added + Elements(was[i..k])
    ensures Span(start, Max(was[k].stop, stop)) == added + Elements(was[i..k + 1])
  {
    assert was[i..k + 1] == was[i..k] + [was[k]];
    ElementsAppend(was[i..k], [was[k]]);
    assert Elements([was[k]]) == Span(was[k].start, was[k].stop);
    assert was[i].stop < was[k].start;
    assert Span(start, Max(was[k].stop, stop)) == Span(start, stop) + Span(was[k].start, was[k].stop);
  }

  /** Replacing the ranges i up to k by their union with an added interval. */
  lemma Merged(was: seq<Range>, i: nat, k: nat, start: int, stop: int, added: set<int>)
    requires Canonical(was) && i <= k <= |was| && start < stop
    requires i > 0 ==> was[i - 1].stop < start
    requires k < |was| ==> stop < was[k].start
    requires Span(start, stop) == added + Elements(was[i..k])
    ensures Canonical(was[..i] + [Range(start, stop)] + was[k..])
    ensures Elements(was[..i] + [Range(start, stop)] + was[k..]) == Elements(was) + added
  {
    hide Elements, Canonical;
    SplitElements(was, i, k);
    SplitCanonical(was, i);
    SplitCanonical(was, k);
    SpliceElements(was[..i], Range(start, stop), was[k..]);
    SpliceCanonical(was[..i], Range(start, stop), was[k..]);
  }

  /** What is left of range r after cutting from start to stop out of it. */
  ghost function Remainder(r: Range, start: int, stop: int): (rem: seq<Range>)
  {
    if start <= r.start then
      if stop < r.stop then [Range(stop, r.stop)] else []
    else
      [Range(r.start, start)] + if stop < r.stop then [Range(stop, r.stop)] else []
  }

  lemma CutCanonical(rs: seq<Range>, i: nat, start: int, stop: int)
    requires Canonical(rs) && i < |rs| && start < stop
    requires start < rs[i].stop && rs[i].start < stop
    ensures Canonical(rs[..i] + Remainder(rs[i], start, stop) + rs[i + 1..])
  {
  }

  lemma CutElements(rs: seq<Range>, i: nat, start: int, stop: int)
    requires Canonical(rs) && i < |rs| && start < stop
    requires start < rs[i].stop && rs[i].start < stop
    ensures var cut := rs[..i] + Remainder(rs[i], start, stop) + rs[i + 1..];
            Elements(cut) - Span(start, stop) == Elements(rs) - Span(start, stop) && Elements(cut) <= Elements(rs)
  {
    hide Canonical;
    var r := rs[i];
    var rem := Remainder(r, start, stop);
    var left := if start <= r.start then [] else [Range(r.start, start)];
    var right := if stop < r.stop then [Range(stop, r.stop)] else [];
    assert rem == left + right;
    ElementsAppend(left, right);
    assert Elements(rem) == Span(r.start, r.stop) - Span(start, stop);
    SplitElements(rs, i, i + 1);
    assert rs[i..i + 1] == [r];
    ElementsAppend(rs[..i] + rem, rs[i + 1..]);
    ElementsAppend(rs[..i], rem);
  }

  lemma EmptyList(rs: seq<Range>)
    requires Canonical(rs)
    ensures rs == [] <==> Elements(rs) == {}
  {
    if rs != [] { FirstRange(rs); }
  }

  lemma FewElements(r: Range)
    ensures Elements([]) == {} && Elements([r]) == Span(r.start, r.stop)
  {
  }

  lemma Adjacent(rs: seq<Range>, i: nat)
    requires Canonical(rs) && 0 < i < |rs|
    ensures rs[i - 1].stop < rs[i].start
  {
  }

  lemma Outside(rs: seq<Range>, i: nat, start: int, stop: int)
    requires Canonical(rs) && i <= |rs|
    requires forall j :: 0 <= j < i ==> rs[j].stop <= start || stop <= rs[j].start
    requires i < |rs| ==> stop <= rs[i].start
    ensures Elements(rs) !! Span(start, stop)
  {
    forall x | x in Elements(rs)
      ensures x !in Span(start, stop)
    {
      ElementsAt(rs, x);
    }
  }

  class RangeSet {
    var ranges: seq<Range>

    ghost predicate Valid() reads this { Canonical(ranges) }

    ghost function Contents(): set<int> reads this { Elements(ranges) }

    constructor ()
      ensures Valid() && Contents() == {} && ranges == []
    {
      ranges := [];
    }

    method Add(from: int, to: int)
      requires Valid()
      requires from < to
      modifies this
      ensures Valid()
      ensures Contents() == old(Contents()) + Span(from, to)
    {
      hide Elements, Canonical;
      ghost var was := ranges;
      var start, stop := from, to;
      var i := 0;
      while i < |ranges|
        invariant 0 <= i <= |was| && ranges == was && start == from && stop == to
        invariant i > 0 ==> was[i - 1].stop < start
      {
        var r := ranges[i];
        FewElements(r);
        assert was[i..i] == [];
        if stop < r.start {
          Merged(was, i, i, start, stop, Span(from, to));
          ranges := ranges[..i] + [Range(start, stop)] + ranges[i..];
          return;
        }
        if start > r.stop {
          i := i + 1;
          continue;
        }
        if i > 0 { Adjacent(was, i); }
        start := Min(start, r.start);
        stop := Max(stop, r.stop);
        ghost var k := i + 1;
        assert was[i..k] == [r];
        while i < |ranges| - 1 && ranges[i + 1].start <= stop
          invariant i < k <= |was| && ranges == was[..i + 1] + was[k..]
          invariant start <= was[i].start && start < stop && (i > 0 ==> was[i - 1].stop < start)
          invariant Span(start, stop) == Span(from, to) + Elements(was[i..k])
          decreases |ranges|
        {
          MergeNext(was, i, k, start, stop, Span(from, to));
          stop := Max(ranges[i + 1].stop, stop);
          ranges := ranges[..i + 1] + ranges[i + 2..];
          k := k + 1;
        }
        Merged(was, i, k, start, stop, Span(from, to));
        ranges := ranges[i := Range(start, stop)];
        assert ranges == was[..i] + [Range(start, stop)] + was[k..];
        return;
      }
      FewElements(Range(start, stop));
      assert was[i..i] == [];
      Merged(was, i, i, start, stop, Span(from, to));
      ranges := ranges + [Range(start, stop)];
      assert ranges == was[..i] + [Range(start, stop)] + was[i..];
    }

    method Shift() returns (r: Range)
      requires Valid() && |ranges| > 0
      modifies this
      ensures Valid() && r == old(ranges)[0] && ranges == old(ranges)[1..]
      ensures Contents() == old(Contents()) - Span(r.start, r.stop)
    {
      FirstRange(ranges);
      r := ranges[0];
      ranges := ranges[1..];
    }

    method Bounds() returns (r: Range)
      requires Valid() && |ranges| > 0
      ensures r == Range(ranges[0].start, ranges[|ranges| - 1].stop)
      ensures r.start in Contents() && r.stop - 1 in Contents()
      ensures forall x | x in Contents() :: r.start <= x < r.stop
    {
      r := Range(ranges[0].start, ranges[|ranges| - 1].stop);
      Bounded(ranges);
      ElementsAt(ranges, r.start);
      ElementsAt(ranges, r.stop - 1);
    }

    method Subtract(start: int, stop: int)
      requires Valid()
      requires start < stop
      modifies this
      ensures Valid()
      ensures Contents() == old(Contents()) - Span(start, stop)
    {
      hide Elements, Canonical;
      ghost var was := Contents();
      var i := 0;
      while i < |ranges|
        invariant 0 <= i <= |ranges| && Valid()
        invariant forall j :: 0 <= j < i ==> ranges[j].stop <= start || stop <= ranges[j].start
        invariant Contents() - Span(start, stop) == was - Span(start, stop) && Contents() <= was
        decreases if i < |ranges| && ranges[i].start < stop then |ranges| - i + 1 else 0
      {
        var r := ranges[i];
        if stop <= r.start {
          Outside(ranges, i, start, stop);
          return;
        }
        if start >= r.stop {
          i := i + 1;
          continue;
        }
        CutCanonical(ranges, i, start, stop);
        CutElements(ranges, i, start, stop);
        ghost var cut := ranges[..i] + Remainder(r, start, stop) + ranges[i + 1..];
        if start <= r.start && stop >= r.stop {
          ranges := ranges[..i] + ranges[i + 1..];
          assert ranges == cut;
          continue;
        }
        if start > r.start {
          ranges := ranges[i := Range(r.start, start)];
          if stop < r.stop {
            ranges := ranges[..i + 1] + [Range(stop, r.stop)] + ranges[i + 1..];
          }
        } else {
          ranges := ranges[i := Range(stop, r.stop)];
        }
        assert ranges == cut;
        i := i + 1;
      }
      Outside(ranges, i, start, stop);
    }

    method Has(val: int) returns (b: bool)
      ensures b <==> val in Contents()
    {
      ElementsAt(ranges, val);
      for i := 0 to |ranges|
        invariant forall j :: 0 <= j < i ==> !(ranges[j].start <= val < ranges[j].stop)
      {
        if ranges[i].start <= val < ranges[i].stop {
          return true;
        }
      }
      return false;
    }

    method Equals(other: RangeSet) returns (b: bool)
      requires Valid() && other.Valid()
      ensures b <==> Contents() == other.Contents()
    {
      CanonicalUnique(ranges, other.ranges);
      b := ranges == other.ranges;
    }
  }
}
