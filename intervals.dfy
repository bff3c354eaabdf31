/** Interval algebra of the diarization utilities: merging integer ranges,
    the integer core of merging float ranges, overlap tests and
    intersections, range validation, sub-segmentation of a speech segment and
    the cursor search of the streaming diarizer. */
module Intervals {

  import opened Common
  import opened Sorting

  /** A `[start, end]` pair of integer ticks. */
  datatype IntRange = IntRange(start: int, end: int)

  /** A `[start, end]` pair of times in seconds. */
  datatype Range = Range(start: real, end: real)

  function Starts(xs: seq<IntRange>): (r: seq<int>)
    ensures |r| == |xs| && forall i :: 0 <= i < |xs| ==> r[i] == xs[i].start
  {
    seq(|xs|, i requires 0 <= i < |xs| => xs[i].start)
  }

  function Ends(xs: seq<IntRange>): (r: seq<int>)
    ensures |r| == |xs| && forall i :: 0 <= i < |xs| ==> r[i] == xs[i].end
  {
    seq(|xs|, i requires 0 <= i < |xs| => xs[i].end)
  }

  // ---------------------------------------------------------------------
  // merge_int_intervals
  // ---------------------------------------------------------------------

  /** The merging scan over the sorted columns: `[start, end]` is the range
      being grown, `ss`/`es` the starts and ends not yet visited. The next
      pair joins the current range when the running end reaches its start
      (touching ranges join); otherwise the current range is emitted. */
  function MergeRun(start: int, end: int, ss: seq<int>, es: seq<int>): seq<IntRange>
    requires |ss| == |es|
    decreases |ss|
  {
    if ss == [] then [IntRange(start, end)]
    else if end >= ss[0] then MergeRun(start, Max(es[0], end), ss[1..], es[1..])
    else [IntRange(start, end)] + MergeRun(ss[0], Max(es[0], end), ss[1..], es[1..])
  }

  /** What `merge_int_intervals` returns: nothing for no input, the input
      itself for a single range, and otherwise the scan over the starts and
      the ends each sorted on their own. */
  function MergedIntervals(xs: seq<IntRange>): seq<IntRange>
  {
    if |xs| == 0 then []
    else if |xs| == 1 then xs
    else
      var ss, es := Sort(Starts(xs)), Sort(Ends(xs));
      MergeRun(ss[0], es[0], ss[1..], es[1..])
  }

  method MergeIntIntervals(intervalsIn: seq<IntRange>) returns (merged: seq<IntRange>)
    ensures merged == MergedIntervals(intervalsIn)
    ensures |intervalsIn| == 0 ==> merged == []
    ensures |intervalsIn| == 1 ==> merged == intervalsIn
  {
    var n := |intervalsIn|;
    if n == 0 {
      return [];
    } else if n == 1 {
      return intervalsIn;
    }
    var ss := Sort(Starts(intervalsIn));
    var es := Sort(Ends(intervalsIn));
    ghost var target := MergeRun(ss[0], es[0], ss[1..], es[1..]);
    assert target == MergedIntervals(intervalsIn);
    merged := [];
    var start, end := ss[0], es[0];
    for i := 1 to n
      invariant merged + MergeRun(start, end, ss[i..], es[i..]) == target
    {
      var stt2, end2 := ss[i], es[i];
      assert ss[i..][0] == stt2 && es[i..][0] == end2;
      assert ss[i..][1..] == ss[i + 1..] && es[i..][1..] == es[i + 1..];
      ghost var rest := MergeRun(stt2, Max(end2, end), ss[i + 1..], es[i + 1..]);
      if end >= stt2 {
        end := Max(end2, end);
      } else {
        assert MergeRun(start, end, ss[i..], es[i..]) == [IntRange(start, end)] + rest;
        assert merged + ([IntRange(start, end)] + rest) == (merged + [IntRange(start, end)]) + rest;
        merged := merged + [IntRange(start, end)];
        start := stt2;
        end := Max(end2, end);
      }
    }
    assert ss[n..] == [];
    merged := merged + [IntRange(start, end)];
  }

  /** Consecutive output ranges of the scan are separated by a gap: each
      output range ends strictly before the next one starts. The first
      output range keeps the scan's start. */
  lemma {:induction false} MergeRunGaps(start: int, end: int, ss: seq<int>, es: seq<int>)
    requires |ss| == |es|
    ensures var r := MergeRun(start, end, ss, es);
      && 1 <= |r| <= |ss| + 1
      && r[0].start == start
      && forall k :: 0 <= k < |r| - 1 ==> r[k].end < r[k + 1].start
    decreases |ss|
  {
    if ss != [] {
      MergeRunGaps(start, Max(es[0], end), ss[1..], es[1..]);
      MergeRunGaps(ss[0], Max(es[0], end), ss[1..], es[1..]);
    }
  }

  /** When the current range and every remaining pair is well formed, so is
      every output range. */
  lemma {:induction false} MergeRunWellFormed(start: int, end: int, ss: seq<int>, es: seq<int>)
    requires |ss| == |es| && start <= end
    requires forall i :: 0 <= i < |ss| ==> ss[i] <= es[i]
    ensures forall r :: r in MergeRun(start, end, ss, es) ==> r.start <= r.end
    decreases |ss|
  {
    if ss != [] {
      MergeRunWellFormed(start, Max(es[0], end), ss[1..], es[1..]);
      MergeRunWellFormed(ss[0], Max(es[0], end), ss[1..], es[1..]);
    }
  }

  /** Every output start is the scan's start or a visited start, and every
      output end is the scan's end or a visited end. */
  lemma {:induction false} MergeRunEndpoints(start: int, end: int, ss: seq<int>, es: seq<int>)
    requires |ss| == |es|
    ensures forall r :: r in MergeRun(start, end, ss, es) ==>
      (r.start == start || r.start in ss) && (r.end == end || r.end in es)
    decreases |ss|
  {
    if ss != [] {
      MergeRunEndpoints(start, Max(es[0], end), ss[1..], es[1..]);
      MergeRunEndpoints(ss[0], Max(es[0], end), ss[1..], es[1..]);
    }
  }

  /** For input ranges with `start <= end`, the merged ranges are well
      formed, their starts strictly increase, and each one ends before the
      next one starts. */
  lemma MergedIntervalsOrdered(xs: seq<IntRange>)
    requires forall i :: 0 <= i < |xs| ==> xs[i].start <= xs[i].end
    ensures var r := MergedIntervals(xs);
      && (forall k :: 0 <= k < |r| ==> r[k].start <= r[k].end)
      && (forall k :: 0 <= k < |r| - 1 ==> r[k].end < r[k + 1].start && r[k].start < r[k + 1].start)
  {
    if |xs| >= 2 {
      var ss, es := Sort(Starts(xs)), Sort(Ends(xs));
      SortDominated(Starts(xs), Ends(xs));
      MergeRunGaps(ss[0], es[0], ss[1..], es[1..]);
      MergeRunWellFormed(ss[0], es[0], ss[1..], es[1..]);
      var r := MergedIntervals(xs);
      assert forall k :: 0 <= k < |r| ==> r[k] in r;
    }
  }

  /** `t` lies in one of the ranges `xs`. */
  predicate InSome(xs: seq<IntRange>, t: int)
  {
    exists i :: 0 <= i < |xs| && xs[i].start <= t <= xs[i].end
  }

  /** `t` lies in one of the ranges `[ss[k], es[k]]`. */
  predicate InPairs(ss: seq<int>, es: seq<int>, t: int)
    requires |ss| == |es|
  {
    exists k :: 0 <= k < |ss| && ss[k] <= t <= es[k]
  }

  lemma InSomeCons(xs: seq<IntRange>, t: int)
    requires xs != []
    ensures InSome(xs, t) <==> xs[0].start <= t <= xs[0].end || InSome(xs[1..], t)
  {
    var tl := xs[1..];
    if InSome(xs, t) {
      var i :| 0 <= i < |xs| && xs[i].start <= t <= xs[i].end;
      if i > 0 { assert tl[i - 1] == xs[i]; }
    }
    if InSome(tl, t) {
      var i :| 0 <= i < |tl| && tl[i].start <= t <= tl[i].end;
      assert xs[i + 1] == tl[i];
    }
  }

  lemma InPairsCons(ss: seq<int>, es: seq<int>, t: int)
    requires |ss| == |es| && ss != []
    ensures InPairs(ss, es, t) <==> ss[0] <= t <= es[0] || InPairs(ss[1..], es[1..], t)
  {
    var s1, e1 := ss[1..], es[1..];
    if InPairs(ss, es, t) {
      var k :| 0 <= k < |ss| && ss[k] <= t <= es[k];
      if k > 0 { assert s1[k - 1] == ss[k] && e1[k - 1] == es[k]; }
    }
    if InPairs(s1, e1, t) {
      var k :| 0 <= k < |s1| && s1[k] <= t <= e1[k];
      assert ss[k + 1] == s1[k] && es[k + 1] == e1[k];
    }
  }

  /** For well-formed ranges, `t` is covered exactly when fewer ranges end
      before `t` than start at or before it. */
  lemma {:induction false} CoverCount(xs: seq<IntRange>, t: int)
    requires forall i :: 0 <= i < |xs| ==> xs[i].start <= xs[i].end
    ensures Below(Ends(xs), t) <= Below(Starts(xs), t + 1)
    ensures InSome(xs, t) <==> Below(Ends(xs), t) < Below(Starts(xs), t + 1)
    decreases |xs|
  {
    if xs != [] {
      var tl := xs[1..];
      assert Starts(xs)[1..] == Starts(tl) && Ends(xs)[1..] == Ends(tl);
      CoverCount(tl, t);
      InSomeCons(xs, t);
    }
  }

  /** For sorted columns, `t` lies in some pair `[ss[k], es[k]]` exactly
      when fewer ends lie before `t` than starts at or before it. */
  lemma PairsCover(ss: seq<int>, es: seq<int>, t: int)
    requires |ss| == |es| && Sorted(ss) && Sorted(es)
    ensures InPairs(ss, es, t) <==> Below(es, t) < Below(ss, t + 1)
  {
    var a, b := Below(ss, t + 1), Below(es, t);
    if InPairs(ss, es, t) {
      var k :| 0 <= k < |ss| && ss[k] <= t <= es[k];
      SortedBelow(ss, t + 1, k);
      SortedBelow(es, t, k);
    }
    if b < a {
      SortedBelow(ss, t + 1, b);
      SortedBelow(es, t, b);
      assert ss[b] <= t <= es[b];
    }
  }

  /** The scan covers the points of the current range and of the remaining
      pairs, provided the starts are sorted and not before the current
      start, and every pair is well formed. */
  lemma {:induction false} MergeRunCover(start: int, end: int, ss: seq<int>, es: seq<int>, t: int)
    requires |ss| == |es| && start <= end && Sorted(ss)
    requires ss != [] ==> start <= ss[0]
    requires forall i :: 0 <= i < |ss| ==> ss[i] <= es[i]
    ensures InSome(MergeRun(start, end, ss, es), t) <==> start <= t <= end || InPairs(ss, es, t)
    decreases |ss|
  {
    var r := MergeRun(start, end, ss, es);
    if ss == [] {
      assert r == [IntRange(start, end)];
      InSomeCons(r, t);
    } else {
      var s1, e1 := ss[1..], es[1..];
      SortedTail(ss);
      InPairsCons(ss, es, t);
      if end >= ss[0] {
        MergeRunCover(start, Max(es[0], end), s1, e1, t);
      } else {
        var rest := MergeRun(ss[0], es[0], s1, e1);
        MergeRunCover(ss[0], es[0], s1, e1, t);
        assert r == [IntRange(start, end)] + rest;
        InSomeCons(r, t);
        assert r[1..] == rest;
      }
    }
  }

  /** Merging keeps exactly the covered points: a point lies in some merged
      range exactly when it lies in some input range. */
  lemma MergedIntervalsCover(xs: seq<IntRange>, t: int)
    requires forall i :: 0 <= i < |xs| ==> xs[i].start <= xs[i].end
    ensures InSome(MergedIntervals(xs), t) <==> InSome(xs, t)
  {
    if |xs| >= 2 {
      var ss, es := Sort(Starts(xs)), Sort(Ends(xs));
      assert MergedIntervals(xs) == MergeRun(ss[0], es[0], ss[1..], es[1..]);
      assert InSome(xs, t) <==> InPairs(ss, es, t) by {
        BelowSort(Starts(xs), t + 1);
        BelowSort(Ends(xs), t);
        CoverCount(xs, t);
        PairsCover(ss, es, t);
      }
      assert InSome(MergedIntervals(xs), t) <==> InPairs(ss, es, t) by {
        SortDominated(Starts(xs), Ends(xs));
        SortedTail(ss);
        MergeRunCover(ss[0], es[0], ss[1..], es[1..], t);
        InPairsCons(ss, es, t);
      }
    }
  }

  /** Each merged range starts at some input start and ends at some input
      end. */
  lemma MergedIntervalsEndpoints(xs: seq<IntRange>)
    ensures forall r :: r in MergedIntervals(xs) ==>
      r.start in multiset(Starts(xs)) && r.end in multiset(Ends(xs))
  {
    if |xs| == 1 {
      assert Starts(xs) == [xs[0].start] && Ends(xs) == [xs[0].end];
    } else if |xs| >= 2 {
      var ss, es := Sort(Starts(xs)), Sort(Ends(xs));
      MergeRunEndpoints(ss[0], es[0], ss[1..], es[1..]);
      forall r | r in MergedIntervals(xs)
        ensures r.start in multiset(Starts(xs)) && r.end in multiset(Ends(xs))
      {
        assert r.start in ss by { assert ss == [ss[0]] + ss[1..]; }
        assert r.end in es by { assert es == [es[0]] + es[1..]; }
        assert r.start in multiset(ss) && r.end in multiset(es);
      }
    }
  }

  /** Starts and ends are sorted as separate columns, so the merged result
      depends only on the multiset of starts and the multiset of ends, not on
      how they were paired in the input. */
  lemma MergedIntervalsDependsOnColumns(a: seq<IntRange>, b: seq<IntRange>)
    requires multiset(Starts(a)) == multiset(Starts(b))
    requires multiset(Ends(a)) == multiset(Ends(b))
    ensures MergedIntervals(a) == MergedIntervals(b)
  {
    assert |a| == |Starts(a)| == |multiset(Starts(a))| == |Starts(b)| == |b|;
    SortDependsOnMultiset(Starts(a), Starts(b));
    SortDependsOnMultiset(Ends(a), Ends(b));
    if |a| == 1 {
      assert Starts(a) == [a[0].start] && Starts(b) == [b[0].start];
      assert Ends(a) == [a[0].end] && Ends(b) == [b[0].end];
      assert a[0].start in multiset(Starts(b)) && a[0].end in multiset(Ends(b));
      assert a == b;
    }
  }

  /** Two ranges whose starts and ends are both in order go to the scan as
      they are. */
  lemma MergedPair(a: IntRange, b: IntRange)
    requires a.start <= b.start && a.end <= b.end
    ensures MergedIntervals([a, b]) == MergeRun(a.start, a.end, [b.start], [b.end])
  {
    var xs, ss, es := [a, b], [a.start, b.start], [a.end, b.end];
    assert Starts(xs) == ss && Ends(xs) == es;
    SortPair(a.start, b.start);
    SortPair(a.end, b.end);
    assert ss[1..] == [b.start] && es[1..] == [b.end];
  }

  /** Two ranges in order, the first ending before the second starts, are
      returned as they are. */
  lemma MergeTwoApart(a: IntRange, b: IntRange)
    requires a.start <= b.start && a.end <= b.end && a.end < b.start
    ensures MergedIntervals([a, b]) == [a, b]
  {
    MergedPair(a, b);
    var last := MergeRun(b.start, Max(b.end, a.end), [b.start][1..], [b.end][1..]);
    assert last == [b] by {
      assert [b.start][1..] == [] && [b.end][1..] == [];
      assert Max(b.end, a.end) == b.end;
    }
    assert MergeRun(a.start, a.end, [b.start], [b.end]) == [a] + last;
  }

  /** Touching ranges are merged. */
  lemma MergeTouching()
    ensures MergedIntervals([IntRange(1, 10), IntRange(10, 20)]) == [IntRange(1, 20)]
  {
    var xs := [IntRange(1, 10), IntRange(10, 20)];
    assert Starts(xs) == [1, 10] && Ends(xs) == [10, 20];
    SortPair(1, 10);
    SortPair(10, 20);
  }

  /** Ranges one tick apart stay separate, although the function's own usage
      note says that neighbouring numbers merge. */
  lemma MergeKeepsAdjacentApart()
    ensures MergedIntervals([IntRange(1, 10), IntRange(11, 20)]) == [IntRange(1, 10), IntRange(11, 20)]
  {
    MergeTwoApart(IntRange(1, 10), IntRange(11, 20));
  }

  // ---------------------------------------------------------------------
  // merge_float_intervals, on ranges already scaled to integer ticks
  // ---------------------------------------------------------------------

  /** The ranges kept for merging: each start moved `margin` ticks later,
      and only the ranges still nonempty after that move. */
  function ShiftedRanges(ticks: seq<IntRange>, margin: int): (r: seq<IntRange>)
    ensures |r| <= |ticks|
    ensures forall x :: x in r ==> x.start < x.end
    ensures forall x :: x in r ==> exists i :: 0 <= i < |ticks| && x == IntRange(ticks[i].start + margin, ticks[i].end)
  {
    if ticks == [] then []
    else
      var last := ticks[|ticks| - 1];
      var rest := ShiftedRanges(ticks[..|ticks| - 1], margin);
      if last.start + margin < last.end then rest + [IntRange(last.start + margin, last.end)] else rest
  }

  /** What `merge_float_intervals` computes between its conversions to and
      from ticks: merge the shifted ranges, then move each start back. */
  function MergedShifted(ticks: seq<IntRange>, margin: int): seq<IntRange>
  {
    var m := MergedIntervals(ShiftedRanges(ticks, margin));
    seq(|m|, k requires 0 <= k < |m| => IntRange(m[k].start - margin, m[k].end))
  }

  method MergeFloatIntervals(ticks: seq<IntRange>, margin: int) returns (merged: seq<IntRange>)
    ensures merged == MergedShifted(ticks, margin)
  {
    var rangesInt: seq<IntRange> := [];
    for i := 0 to |ticks|
      invariant rangesInt == ShiftedRanges(ticks[..i], margin)
    {
      assert ticks[..i + 1][..i] == ticks[..i];
      var stt, end := ticks[i].start + margin, ticks[i].end;
      if stt < end {
        rangesInt := rangesInt + [IntRange(stt, end)];
      }
    }
    assert ticks[..|ticks|] == ticks;
    var m := MergeIntIntervals(rangesInt);
    merged := seq(|m|, k requires 0 <= k < |m| => IntRange(m[k].start - margin, m[k].end));
  }

  /** With no margin, ranges one tick apart stay separate, although the
      function's usage note lists them as merged at margin 0. */
  lemma MergeFloatNoMarginKeepsAdjacentApart()
    ensures MergedShifted([IntRange(1, 10), IntRange(11, 20)], 0) == [IntRange(1, 10), IntRange(11, 20)]
  {
    var xs := [IntRange(1, 10), IntRange(11, 20)];
    assert ShiftedRanges(xs[..1], 0) == [IntRange(1, 10)] by {
      assert xs[..1][..0] == [];
    }
    assert ShiftedRanges(xs, 0) == xs;
    MergeKeepsAdjacentApart();
  }

  /** With a margin of one tick, touching ranges stay separate, although the
      function's usage note lists them as merged at margin 1. */
  lemma MergeFloatMarginOneKeepsTouchingApart()
    ensures MergedShifted([IntRange(1, 10), IntRange(10, 20)], 1) == [IntRange(1, 10), IntRange(10, 20)]
  {
    var xs, ys := [IntRange(1, 10), IntRange(10, 20)], [IntRange(2, 10), IntRange(11, 20)];
    assert ShiftedRanges(xs, 1) == ys by {
      assert ShiftedRanges(xs[..1], 1) == [IntRange(2, 10)] by {
        assert xs[..1][..0] == [];
      }
    }
    MergeTwoApart(IntRange(2, 10), IntRange(11, 20));
  }

  /** After merging with a margin, each range is longer than the margin,
      starts increase, and the next range starts less than `margin` ticks
      before the previous one ends: ranges overlapping by at least the margin
      have been joined. */
  lemma MergedShiftedSeparated(ticks: seq<IntRange>, margin: int)
    ensures var r := MergedShifted(ticks, margin);
      && (forall k :: 0 <= k < |r| ==> r[k].start + margin <= r[k].end)
      && (forall k :: 0 <= k < |r| - 1 ==> r[k].end < r[k + 1].start + margin && r[k].start < r[k + 1].start)
  {
    var xs := ShiftedRanges(ticks, margin);
    assert forall i :: 0 <= i < |xs| ==> xs[i] in xs;
    MergedIntervalsOrdered(xs);
  }

  // ---------------------------------------------------------------------
  // is_overlap, get_overlap_range, get_sub_range_list
  // ---------------------------------------------------------------------

  /** `is_overlap`: strict on both sides, so ranges that only touch do not
      overlap. */
  predicate IsOverlap(a: Range, b: Range)
  {
    a.end > b.start && b.end > a.start
  }

  /** `t` lies in the closed range `r`. */
  predicate Within(r: Range, t: real)
  {
    r.start <= t <= r.end
  }

  /** `t` lies strictly inside `r`. */
  predicate Inside(r: Range, t: real)
  {
    r.start < t < r.end
  }

  /** For ranges of positive length, `IsOverlap` holds exactly when some
      time lies strictly inside both; in particular it is symmetric. */
  lemma IsOverlapCommonPoint(a: Range, b: Range)
    requires a.start < a.end && b.start < b.end
    ensures IsOverlap(a, b) <==> exists t :: Inside(a, t) && Inside(b, t)
    ensures IsOverlap(a, b) == IsOverlap(b, a)
  {
    if IsOverlap(a, b) {
      var t := (MaxReal(a.start, b.start) + MinReal(a.end, b.end)) / 2.0;
      assert Inside(a, t) && Inside(b, t);
    }
  }

  /** `get_overlap_range`: the source asserts that the ranges overlap. The
      result is exactly the intersection of the two ranges. */
  function GetOverlapRange(a: Range, b: Range): (r: Range)
    requires IsOverlap(a, b)
    ensures forall t :: Within(r, t) <==> Within(a, t) && Within(b, t)
    ensures a.start <= a.end && b.start <= b.end ==> r.start <= r.end
    ensures a.start < a.end && b.start < b.end ==> r.start < r.end
  {
    Range(MaxReal(a.start, b.start), MinReal(a.end, b.end))
  }

  /** What `get_sub_range_list` returns: nothing for an empty target,
      otherwise the intersection with the target of each source range that
      overlaps it, in source order. */
  function SubRanges(target: Option<Range>, sources: seq<Range>): seq<Range>
  {
    match target
    case None => []
    case Some(tr) =>
      if sources == [] then []
      else
        var rest := SubRanges(target, sources[..|sources| - 1]);
        var s := sources[|sources| - 1];
        if IsOverlap(s, tr) then rest + [GetOverlapRange(s, tr)] else rest
  }

  method GetSubRangeList(target: Option<Range>, sources: seq<Range>) returns (outRange: seq<Range>)
    ensures outRange == SubRanges(target, sources)
    ensures target.None? ==> outRange == []
  {
    if target.None? {
      return [];
    }
    outRange := [];
    for i := 0 to |sources|
      invariant outRange == SubRanges(target, sources[..i])
    {
      assert sources[..i + 1][..i] == sources[..i];
      if IsOverlap(sources[i], target.value) {
        outRange := outRange + [GetOverlapRange(sources[i], target.value)];
      }
    }
    assert sources[..|sources|] == sources;
  }

  /** Some range of `rs` contains `t`. */
  predicate Covered(rs: seq<Range>, t: real)
  {
    exists k :: 0 <= k < |rs| && Within(rs[k], t)
  }

  /** Some range of `sources` overlaps `tr` and contains `t`. */
  predicate HitBy(sources: seq<Range>, tr: Range, t: real)
  {
    exists j :: 0 <= j < |sources| && IsOverlap(sources[j], tr) && Within(sources[j], t)
  }

  /** A time is covered by the sub-range list exactly when it lies in the
      target and in some source range that overlaps the target. */
  lemma {:induction false} SubRangesCover(tr: Range, sources: seq<Range>, t: real)
    ensures Covered(SubRanges(Some(tr), sources), t) <==> Within(tr, t) && HitBy(sources, tr, t)
  {
    if sources != [] {
      var init, s := sources[..|sources| - 1], sources[|sources| - 1];
      SubRangesCover(tr, init, t);
      var rest, r := SubRanges(Some(tr), init), SubRanges(Some(tr), sources);
      assert forall j :: 0 <= j < |init| ==> init[j] == sources[j];
      assert HitBy(sources, tr, t) <==> HitBy(init, tr, t) || (IsOverlap(s, tr) && Within(s, t)) by {
        if HitBy(sources, tr, t) {
          var j :| 0 <= j < |sources| && IsOverlap(sources[j], tr) && Within(sources[j], t);
          if j < |init| {
            assert IsOverlap(init[j], tr) && Within(init[j], t);
          }
        }
        if HitBy(init, tr, t) {
          var j :| 0 <= j < |init| && IsOverlap(init[j], tr) && Within(init[j], t);
          assert IsOverlap(sources[j], tr) && Within(sources[j], t);
        }
      }
      if IsOverlap(s, tr) {
        var o := GetOverlapRange(s, tr);
        assert r == rest + [o];
        assert Covered(r, t) <==> Covered(rest, t) || Within(o, t) by {
          if Covered(r, t) {
            var k :| 0 <= k < |r| && Within(r[k], t);
            if k < |rest| {
              assert Within(rest[k], t);
            }
          }
          if Covered(rest, t) {
            var k :| 0 <= k < |rest| && Within(rest[k], t);
            assert Within(r[k], t);
          }
          if Within(o, t) {
            assert Within(r[|rest|], t);
          }
        }
      } else {
        assert r == rest;
      }
    }
  }

  // ---------------------------------------------------------------------
  // check_ranges
  // ---------------------------------------------------------------------

  /** `check_ranges`: passes when no range ends before it starts, and raises
      `ValueError` at the first one that does. */
  method CheckRanges(ranges: seq<Range>) returns (r: Outcome)
    ensures r == Pass <==> forall k :: 0 <= k < |ranges| ==> ranges[k].start <= ranges[k].end
    ensures r.Fail? ==> r.error.ValueError?
  {
    for k := 0 to |ranges|
      invariant forall j :: 0 <= j < k ==> ranges[j].start <= ranges[j].end
    {
      if ranges[k].end < ranges[k].start {
        return Fail(ValueError("Range start time should be preceding the end time but we got: {range_tup}"));
      }
    }
    return Pass;
  }

  // ---------------------------------------------------------------------
  // get_subsegments_
  // ---------------------------------------------------------------------

  /** A sub-segment as the source returns it: its start and its length. */
  datatype Subsegment = Subsegment(start: real, duration: real)

  /** `math.ceil` */
  function Ceil(x: real): (c: int)
    ensures x <= c as real < x + 1.0
  {
    -((-x).Floor)
  }

  /** Number of windows cut from a segment: one more than the rounded-up
      count of shifts that fit after the first window, and at least one. */
  function SliceCount(window: real, shift: real, duration: real): (n: int)
    requires shift != 0.0
    ensures n >= 1
  {
    var base := Ceil((duration - window) / shift);
    if base < 0 then 1 else base + 1
  }

  /** The k-th window: it starts `k` shifts after the offset and is cut at
      the end of the segment. */
  function SubsegmentAt(offset: real, window: real, shift: real, duration: real, k: nat): Subsegment
  {
    var start := offset + k as real * shift;
    Subsegment(start, MinReal(start + window, offset + duration) - start)
  }

  method GetSubsegments(offset: real, window: real, shift: real, duration: real)
    returns (r: Result<seq<Subsegment>>)
    ensures shift == 0.0 <==> r == Err(ZeroDivisionError)
    ensures shift != 0.0 ==> r.Ok? && |r.value| == SliceCount(window, shift, duration)
    ensures r.Ok? ==> forall k :: 0 <= k < |r.value| ==> r.value[k] == SubsegmentAt(offset, window, shift, duration, k)
  {
    if shift == 0.0 {
      return Err(ZeroDivisionError);
    }
    var subsegments: seq<Subsegment> := [];
    var start := offset;
    var sliceEnd := start + duration;
    var slices := SliceCount(window, shift, duration);
    for sliceId := 0 to slices
      invariant |subsegments| == sliceId
      invariant start == offset + sliceId as real * shift
      invariant forall k :: 0 <= k < sliceId ==> subsegments[k] == SubsegmentAt(offset, window, shift, duration, k)
    {
      var end := start + window;
      if end > sliceEnd {
        end := sliceEnd;
      }
      subsegments := subsegments + [Subsegment(start, end - start)];
      start := offset + (sliceId + 1) as real * shift;
    }
    return Ok(subsegments);
  }

  /** With a positive shift the last window ends exactly at the end of the
      segment, so the windows reach the whole segment. */
  lemma SubsegmentsReachEnd(offset: real, window: real, shift: real, duration: real)
    requires shift > 0.0
    ensures var last := SubsegmentAt(offset, window, shift, duration, SliceCount(window, shift, duration) - 1);
      last.start + last.duration == offset + duration
  {
    var x := (duration - window) / shift;
    var base := Ceil(x);
    assert x * shift == duration - window;
    if base >= 0 {
      assert x * shift <= base as real * shift;
    } else {
      assert x * shift <= -1.0 * shift;
    }
  }

  /** When the shift is positive and at most the window, and the segment is
      not empty, every window has a positive length of at most the window
      length. */
  lemma SubsegmentsNonEmpty(offset: real, window: real, shift: real, duration: real, k: nat)
    requires 0.0 < shift <= window && duration > 0.0
    requires k < SliceCount(window, shift, duration)
    ensures 0.0 < SubsegmentAt(offset, window, shift, duration, k).duration <= window
  {
    var x := (duration - window) / shift;
    var base := Ceil(x);
    if base >= 0 {
      var b := base as real;
      assert x * shift == duration - window;
      // k <= base < x + 1, and scaling by the positive shift keeps the order
      calc {
        k as real * shift;
      <= b * shift;
      < (x + 1.0) * shift;
      == x * shift + shift;
      == duration - window + shift;
      <= duration;
      }
    }
  }

  // ---------------------------------------------------------------------
  // get_new_cursor_for_update
  // ---------------------------------------------------------------------

  /** The cursor of the streaming diarizer: the time from which old segments
      are replaced, and the index of the first replaced segment. */
  datatype Cursor = Cursor(position: real, index: nat)

  /** `get_new_cursor_for_update`: walks back over the trailing segments
      that end at or after the frame start. The index is the first of them
      and the position is its start (the frame start when there is none).
      When every segment qualifies the walk runs past the front of the list
      and raises `IndexError`. */
  method GetNewCursorForUpdate(frameStart: real, segmentRanges: seq<Range>) returns (r: Result<Cursor>)
    ensures r.Err? <==> |segmentRanges| > 0 && forall j :: 0 <= j < |segmentRanges| ==> frameStart <= segmentRanges[j].end
    ensures r.Err? ==> r.error == IndexError
    ensures |segmentRanges| == 0 ==> r == Ok(Cursor(frameStart, 0))
    ensures r.Ok? ==>
      var c := r.value;
      && c.index <= |segmentRanges|
      && (forall j :: c.index <= j < |segmentRanges| ==> frameStart <= segmentRanges[j].end)
      && (0 < c.index ==> segmentRanges[c.index - 1].end < frameStart)
      && c.position == if c.index == |segmentRanges| then frameStart else segmentRanges[c.index].start
  {
    var n := |segmentRanges|;
    var cursor := frameStart;
    var count := 0;
    while n > 0
      invariant 0 <= count <= n
      invariant forall j :: n - count <= j < n ==> frameStart <= segmentRanges[j].end
      invariant cursor == if count == 0 then frameStart else segmentRanges[n - count].start
      decreases n - count
    {
      if count == n {
        return Err(IndexError);
      }
      var tRange := segmentRanges[n - count - 1];
      if frameStart <= tRange.end {
        count := count + 1;
        cursor := tRange.start;
      } else {
        break;
      }
    }
    return Ok(Cursor(cursor, n - count));
  }
}
