/** Speaker stamps of the diarizer: a `start end speaker` line becomes a
    record, and the string form stays at the boundary. Python prints a float
    with `str` and reads it back with `float` without loss, so the record
    holds what the line holds. */
module Stamps {

  import opened Common
  import opened Intervals

  datatype Stamp = Stamp(start: real, end: real, speaker: string)

  /** Each stamp ends no later than the next one starts. */
  ghost predicate IsContiguous(s: seq<Stamp>)
  {
    forall k :: 0 <= k < |s| - 1 ==> s[k].end <= s[k + 1].start
  }

  /** Two neighbouring stamps that `merge_stamps` fuses. */
  predicate Fusable(a: Stamp, b: Stamp)
  {
    a.end == b.start && a.speaker == b.speaker
  }

  // ---------------------------------------------------------------------
  // get_contiguous_stamps
  // ---------------------------------------------------------------------

  /** One step of `get_contiguous_stamps`: when the current stamp runs past
      the next start, both are cut at the midpoint of the overlap. The result
      is the stamp emitted and the stamp carried on. */
  function Cut(cur: Stamp, next: Stamp): (Stamp, Stamp)
  {
    if cur.end > next.start then
      var avg := (next.start + cur.end) / 2.0;
      (cur.(end := avg), next.(start := avg))
    else (cur, next)
  }

  /** The scan of `get_contiguous_stamps`: `cur` is the current stamp (its
      start possibly already moved), `rest` the stamps not yet visited. */
  function ContigFrom(cur: Stamp, rest: seq<Stamp>): seq<Stamp>
    decreases |rest|
  {
    if rest == [] then [cur]
    else
      var step := Cut(cur, rest[0]);
      [step.0] + ContigFrom(step.1, rest[1..])
  }

  function Contiguous(stamps: seq<Stamp>): seq<Stamp>
  {
    if |stamps| == 0 then [] else ContigFrom(stamps[0], stamps[1..])
  }

  /** The state of the loop of `get_contiguous_stamps` after its first
      `n - 1` iterations: the stamps emitted so far and the current stamp. */
  function ContigScan(stamps: seq<Stamp>, n: nat): (seq<Stamp>, Stamp)
    requires 1 <= n <= |stamps|
    decreases n
  {
    if n == 1 then ([], stamps[0])
    else
      var before := ContigScan(stamps, n - 1);
      var step := Cut(before.1, stamps[n - 1]);
      (before.0 + [step.0], step.1)
  }

  /** The loop's state followed by the scan of the remaining stamps is the
      whole scan. */
  lemma {:induction false} ContigScanAgrees(stamps: seq<Stamp>, n: nat)
    requires 1 <= n <= |stamps|
    ensures ContigScan(stamps, n).0 + ContigFrom(ContigScan(stamps, n).1, stamps[n..]) == Contiguous(stamps)
    decreases n
  {
    if n > 1 {
      ContigScanAgrees(stamps, n - 1);
      var before := ContigScan(stamps, n - 1);
      var step := Cut(before.1, stamps[n - 1]);
      var rest := ContigFrom(step.1, stamps[n..]);
      assert ContigFrom(before.1, stamps[n - 1..]) == [step.0] + rest by {
        assert stamps[n - 1..][0] == stamps[n - 1] && stamps[n - 1..][1..] == stamps[n..];
      }
      assert before.0 + ([step.0] + rest) == (before.0 + [step.0]) + rest;
    }
  }

  method GetContiguousStamps(stamps: seq<Stamp>) returns (contiguous: seq<Stamp>)
    ensures contiguous == Contiguous(stamps)
    ensures |stamps| == 0 ==> contiguous == []
  {
    var lines := stamps;
    if |lines| == 0 {
      return [];
    }
    contiguous := [];
    for i := 0 to |lines| - 1
      invariant |lines| == |stamps| && lines[i + 1..] == stamps[i + 1..]
      invariant (contiguous, lines[i]) == ContigScan(stamps, i + 1)
    {
      var cur, next := lines[i], lines[i + 1];
      assert next == stamps[i + 1] by { assert lines[i + 1..][0] == stamps[i + 1..][0]; }
      if cur.end > next.start {
        var avg := (next.start + cur.end) / 2.0;
        lines := lines[i + 1 := next.(start := avg)];
        contiguous := contiguous + [cur.(end := avg)];
      } else {
        contiguous := contiguous + [cur];
      }
    }
    ContigScanAgrees(stamps, |stamps|);
    assert stamps[|stamps|..] == [];
    contiguous := contiguous + [lines[|lines| - 1]];
  }

  /** The scan keeps one stamp per input stamp with its speaker, keeps the
      first start and the last end, only moves starts later and ends earlier,
      and leaves every stamp ending no later than the next one starts. */
  lemma {:induction false} ContigFromProperties(cur: Stamp, rest: seq<Stamp>)
    ensures var r := ContigFrom(cur, rest);
      && |r| == |rest| + 1
      && r[0].start == cur.start && r[0].speaker == cur.speaker && r[0].end <= cur.end
      && (forall k :: 1 <= k < |r| ==> r[k].speaker == rest[k - 1].speaker)
      && (forall k :: 1 <= k < |r| ==> r[k].start >= rest[k - 1].start && r[k].end <= rest[k - 1].end)
      && r[|r| - 1].end == (if rest == [] then cur.end else rest[|rest| - 1].end)
      && IsContiguous(r)
    decreases |rest|
  {
    if rest != [] {
      ContigFromProperties(Cut(cur, rest[0]).1, rest[1..]);
    }
  }

  /** `get_contiguous_stamps` keeps the number of stamps and their speakers,
      keeps the first start and the last end, only narrows each stamp, and
      its result is contiguous. */
  lemma ContiguousProperties(s: seq<Stamp>)
    ensures var r := Contiguous(s);
      && |r| == |s|
      && (forall k :: 0 <= k < |s| ==> r[k].speaker == s[k].speaker)
      && (forall k :: 0 <= k < |s| ==> r[k].start >= s[k].start && r[k].end <= s[k].end)
      && (|s| > 0 ==> r[0].start == s[0].start && r[|r| - 1].end == s[|s| - 1].end)
      && IsContiguous(r)
  {
    if |s| > 0 {
      ContigFromProperties(s[0], s[1..]);
    }
  }

  /** Stamps that are already contiguous are left as they are. */
  lemma {:induction false} ContigFromFixed(cur: Stamp, rest: seq<Stamp>)
    requires IsContiguous([cur] + rest)
    ensures ContigFrom(cur, rest) == [cur] + rest
    decreases |rest|
  {
    if rest != [] {
      assert ([cur] + rest)[0] == cur && ([cur] + rest)[1] == rest[0];
      assert IsContiguous([rest[0]] + rest[1..]) by {
        assert [rest[0]] + rest[1..] == rest;
        forall k | 0 <= k < |rest| - 1 ensures rest[k].end <= rest[k + 1].start {
          assert ([cur] + rest)[k + 1] == rest[k];
          assert ([cur] + rest)[k + 2] == rest[k + 1];
        }
      }
      ContigFromFixed(rest[0], rest[1..]);
      assert [rest[0]] + rest[1..] == rest;
    }
  }

  /** `get_contiguous_stamps` is idempotent. */
  lemma ContiguousIdempotent(s: seq<Stamp>)
    ensures Contiguous(Contiguous(s)) == Contiguous(s)
  {
    var r := Contiguous(s);
    ContiguousProperties(s);
    if |r| > 0 {
      assert [r[0]] + r[1..] == r;
      ContigFromFixed(r[0], r[1..]);
    }
  }

  // ---------------------------------------------------------------------
  // merge_stamps
  // ---------------------------------------------------------------------

  /** The scan of `merge_stamps`: a stamp that ends exactly where the next
      stamp of the same speaker starts is fused into it. */
  function MergeFrom(cur: Stamp, rest: seq<Stamp>): seq<Stamp>
    decreases |rest|
  {
    if rest == [] then [cur]
    else if Fusable(cur, rest[0]) then MergeFrom(Stamp(cur.start, rest[0].end, rest[0].speaker), rest[1..])
    else [cur] + MergeFrom(rest[0], rest[1..])
  }

  function Merged(stamps: seq<Stamp>): seq<Stamp>
  {
    if |stamps| == 0 then [] else MergeFrom(stamps[0], stamps[1..])
  }

  method MergeStamps(lines: seq<Stamp>) returns (overlapStamps: seq<Stamp>)
    ensures overlapStamps == Merged(lines)
    ensures |lines| == 0 ==> overlapStamps == []
  {
    if |lines| == 0 {
      return [];
    }
    var stamps := lines;
    overlapStamps := [];
    for i := 0 to |stamps| - 1
      invariant |stamps| == |lines| && stamps[i + 1..] == lines[i + 1..]
      invariant overlapStamps + MergeFrom(stamps[i], stamps[i + 1..]) == Merged(lines)
    {
      var cur, next := stamps[i], stamps[i + 1];
      assert stamps[i + 1..] == [next] + stamps[i + 2..];
      if cur.end == next.start && cur.speaker == next.speaker {
        stamps := stamps[i + 1 := Stamp(cur.start, next.end, next.speaker)];
      } else {
        overlapStamps := overlapStamps + [cur];
      }
    }
    overlapStamps := overlapStamps + [stamps[|stamps| - 1]];
  }

  /** The merge scan never lengthens the list, keeps the first start, the
      first speaker and the last end, and leaves no two neighbours that could
      still be fused. */
  lemma {:induction false} MergeFromShape(cur: Stamp, rest: seq<Stamp>)
    ensures var r := MergeFrom(cur, rest);
      && 1 <= |r| <= |rest| + 1
      && r[0].start == cur.start && r[0].speaker == cur.speaker
      && r[|r| - 1].end == (if rest == [] then cur.end else rest[|rest| - 1].end)
      && (forall k :: 0 <= k < |r| - 1 ==> !Fusable(r[k], r[k + 1]))
    decreases |rest|
  {
    if rest != [] {
      var r := MergeFrom(cur, rest);
      var next := rest[0];
      if Fusable(cur, next) {
        MergeFromShape(Stamp(cur.start, next.end, next.speaker), rest[1..]);
      } else {
        var tail := MergeFrom(next, rest[1..]);
        MergeFromShape(next, rest[1..]);
        assert r == [cur] + tail;
        forall k | 0 <= k < |r| - 1 ensures !Fusable(r[k], r[k + 1]) {
          if k > 0 {
            assert r[k] == tail[k - 1] && r[k + 1] == tail[k];
          }
        }
      }
    }
  }

  /** The merge scan keeps contiguous stamps contiguous. */
  lemma {:induction false} MergeFromContiguous(cur: Stamp, rest: seq<Stamp>)
    requires IsContiguous([cur] + rest)
    ensures IsContiguous(MergeFrom(cur, rest))
    decreases |rest|
  {
    if rest != [] {
      var r := MergeFrom(cur, rest);
      var next := rest[0];
      assert ([cur] + rest)[0] == cur && ([cur] + rest)[1] == next;
      assert IsContiguous(rest) by {
        forall k | 0 <= k < |rest| - 1 ensures rest[k].end <= rest[k + 1].start {
          assert ([cur] + rest)[k + 1] == rest[k] && ([cur] + rest)[k + 2] == rest[k + 1];
        }
      }
      assert [next] + rest[1..] == rest;
      if Fusable(cur, next) {
        var fused := Stamp(cur.start, next.end, next.speaker);
        assert IsContiguous([fused] + rest[1..]) by {
          forall k | 0 <= k < |rest| - 1
            ensures ([fused] + rest[1..])[k].end <= ([fused] + rest[1..])[k + 1].start
          {
            if k == 0 {
              assert ([fused] + rest[1..])[0].end == rest[0].end;
            } else {
              assert ([fused] + rest[1..])[k] == rest[k];
            }
            assert ([fused] + rest[1..])[k + 1] == rest[k + 1];
          }
        }
        MergeFromContiguous(fused, rest[1..]);
      } else {
        var tail := MergeFrom(next, rest[1..]);
        MergeFromContiguous(next, rest[1..]);
        MergeFromShape(next, rest[1..]);
        assert r == [cur] + tail;
        forall k | 0 <= k < |r| - 1 ensures r[k].end <= r[k + 1].start {
          if k > 0 {
            assert r[k] == tail[k - 1] && r[k + 1] == tail[k];
          }
        }
      }
    }
  }

  /** Every speaker of the merge scan's output is one it was given. */
  lemma {:induction false} MergeFromSpeakers(cur: Stamp, rest: seq<Stamp>)
    ensures forall x :: x in MergeFrom(cur, rest) ==>
      x.speaker == cur.speaker || exists y :: y in rest && y.speaker == x.speaker
    decreases |rest|
  {
    if rest != [] {
      var r := MergeFrom(cur, rest);
      var next := rest[0];
      if Fusable(cur, next) {
        MergeFromSpeakers(Stamp(cur.start, next.end, next.speaker), rest[1..]);
        forall x | x in r
          ensures x.speaker == cur.speaker || exists y :: y in rest && y.speaker == x.speaker
        {
          if x.speaker != next.speaker {
            var y :| y in rest[1..] && y.speaker == x.speaker;
            assert y in rest;
          }
        }
      } else {
        var tail := MergeFrom(next, rest[1..]);
        MergeFromSpeakers(next, rest[1..]);
        assert r == [cur] + tail;
        forall x | x in r
          ensures x.speaker == cur.speaker || exists y :: y in rest && y.speaker == x.speaker
        {
          if x != cur {
            assert x in tail;
            if x.speaker == next.speaker {
              assert next in rest;
            } else {
              var y :| y in rest[1..] && y.speaker == x.speaker;
              assert y in rest;
            }
          }
        }
      }
    }
  }

  /** `merge_stamps` never lengthens the list, keeps the first start and the
      last end, leaves no fusable neighbours, and keeps contiguous stamps
      contiguous. */
  lemma MergedProperties(s: seq<Stamp>)
    ensures var r := Merged(s);
      && |r| <= |s|
      && (|r| == 0 <==> |s| == 0)
      && (|s| > 0 ==> r[0].start == s[0].start && r[|r| - 1].end == s[|s| - 1].end)
      && (forall k :: 0 <= k < |r| - 1 ==> !Fusable(r[k], r[k + 1]))
      && (IsContiguous(s) ==> IsContiguous(r))
      && (forall x :: x in r ==> exists y :: y in s && y.speaker == x.speaker)
  {
    if |s| > 0 {
      assert [s[0]] + s[1..] == s;
      MergeFromShape(s[0], s[1..]);
      if IsContiguous(s) {
        MergeFromContiguous(s[0], s[1..]);
      }
      MergeFromSpeakers(s[0], s[1..]);
    }
  }

  /** Stamps with no fusable neighbours are left as they are. */
  lemma {:induction false} MergeFromFixed(cur: Stamp, rest: seq<Stamp>)
    requires forall k :: 0 <= k < |rest| ==> !Fusable(([cur] + rest)[k], ([cur] + rest)[k + 1])
    ensures MergeFrom(cur, rest) == [cur] + rest
    decreases |rest|
  {
    if rest != [] {
      assert ([cur] + rest)[0] == cur && ([cur] + rest)[1] == rest[0];
      forall k | 0 <= k < |rest| - 1
        ensures !Fusable(([rest[0]] + rest[1..])[k], ([rest[0]] + rest[1..])[k + 1])
      {
        assert [rest[0]] + rest[1..] == rest;
        assert ([cur] + rest)[k + 1] == rest[k] && ([cur] + rest)[k + 2] == rest[k + 1];
      }
      MergeFromFixed(rest[0], rest[1..]);
      assert [rest[0]] + rest[1..] == rest;
    }
  }

  /** `merge_stamps` is idempotent. */
  lemma MergedIdempotent(s: seq<Stamp>)
    ensures Merged(Merged(s)) == Merged(s)
  {
    var r := Merged(s);
    MergedProperties(s);
    if |r| > 0 {
      assert [r[0]] + r[1..] == r;
      MergeFromFixed(r[0], r[1..]);
    }
  }

  // ---------------------------------------------------------------------
  // generate_cluster_labels
  // ---------------------------------------------------------------------

  function DigitChar(d: nat): char
    requires d < 10
  {
    "0123456789"[d]
  }

  function NatToString(n: nat): string
    decreases n
  {
    if n < 10 then [DigitChar(n)] else NatToString(n / 10) + [DigitChar(n % 10)]
  }

  /** `str(int(label))` */
  function IntToString(i: int): string
  {
    if i < 0 then "-" + NatToString(-i) else NatToString(i)
  }

  /** `'speaker_' + str(int(label))` */
  function SpeakerTag(clusterLabel: int): string
  {
    "speaker_" + IntToString(clusterLabel)
  }

  /** The raw segment-level stamps: the i-th segment range with the i-th
      cluster label. */
  function LabelledStamps(segmentRanges: seq<Range>, clusterLabels: seq<int>): (r: seq<Stamp>)
    requires |clusterLabels| <= |segmentRanges|
    ensures |r| == |clusterLabels|
    ensures forall i :: 0 <= i < |r| ==>
      r[i] == Stamp(segmentRanges[i].start, segmentRanges[i].end, SpeakerTag(clusterLabels[i]))
  {
    seq(|clusterLabels|, i requires 0 <= i < |clusterLabels| =>
      Stamp(segmentRanges[i].start, segmentRanges[i].end, SpeakerTag(clusterLabels[i])))
  }

  /** The result of `generate_cluster_labels`: the merged speaker turns and
      the raw segment-level stamps. */
  datatype ClusterLabels = ClusterLabels(diarHyp: seq<Stamp>, lines: seq<Stamp>)

  /** `generate_cluster_labels`: one stamp per cluster label, then made
      contiguous and merged. A label without a segment range raises
      `IndexError`. */
  method GenerateClusterLabels(segmentRanges: seq<Range>, clusterLabels: seq<int>)
    returns (r: Result<ClusterLabels>)
    ensures r.Err? <==> |clusterLabels| > |segmentRanges|
    ensures r.Err? ==> r.error == IndexError
    ensures r.Ok? ==>
      && r.value.lines == LabelledStamps(segmentRanges, clusterLabels)
      && r.value.diarHyp == Merged(Contiguous(r.value.lines))
  {
    var lines: seq<Stamp> := [];
    for idx := 0 to |clusterLabels|
      invariant idx <= |segmentRanges| ==> lines == LabelledStamps(segmentRanges, clusterLabels[..idx])
      invariant idx <= |segmentRanges|
    {
      if idx >= |segmentRanges| {
        return Err(IndexError);
      }
      var tag := SpeakerTag(clusterLabels[idx]);
      lines := lines + [Stamp(segmentRanges[idx].start, segmentRanges[idx].end, tag)];
      assert clusterLabels[..idx + 1] == clusterLabels[..idx] + [clusterLabels[idx]];
    }
    assert clusterLabels[..|clusterLabels|] == clusterLabels;
    var contLines := GetContiguousStamps(lines);
    var diarHyp := MergeStamps(contLines);
    return Ok(ClusterLabels(diarHyp, lines));
  }

  /** The speaker turns of `generate_cluster_labels` are contiguous, carry
      no fusable neighbours, are no more than the labels, and each speaker is
      the tag of one of the labels. */
  lemma ClusterLabelsTurns(segmentRanges: seq<Range>, clusterLabels: seq<int>)
    requires |clusterLabels| <= |segmentRanges|
    ensures var turns := Merged(Contiguous(LabelledStamps(segmentRanges, clusterLabels)));
      && |turns| <= |clusterLabels|
      && (|turns| == 0 <==> |clusterLabels| == 0)
      && IsContiguous(turns)
      && (forall k :: 0 <= k < |turns| - 1 ==> !Fusable(turns[k], turns[k + 1]))
      && (forall x :: x in turns ==> exists i :: 0 <= i < |clusterLabels| && x.speaker == SpeakerTag(clusterLabels[i]))
  {
    var lines := LabelledStamps(segmentRanges, clusterLabels);
    var cont := Contiguous(lines);
    ContiguousProperties(lines);
    MergedProperties(cont);
    LabelledSpeakers(segmentRanges, clusterLabels);
    forall x | x in Merged(cont)
      ensures exists i :: 0 <= i < |clusterLabels| && x.speaker == SpeakerTag(clusterLabels[i])
    {
      var y :| y in cont && y.speaker == x.speaker;
    }
  }

  /** Each contiguous stamp carries the tag of one of the labels. */
  lemma LabelledSpeakers(segmentRanges: seq<Range>, clusterLabels: seq<int>)
    requires |clusterLabels| <= |segmentRanges|
    ensures forall y :: y in Contiguous(LabelledStamps(segmentRanges, clusterLabels)) ==>
      exists i :: 0 <= i < |clusterLabels| && y.speaker == SpeakerTag(clusterLabels[i])
  {
    var lines := LabelledStamps(segmentRanges, clusterLabels);
    var cont := Contiguous(lines);
    ContiguousProperties(lines);
    forall y | y in cont ensures exists i :: 0 <= i < |clusterLabels| && y.speaker == SpeakerTag(clusterLabels[i]) {
      var k :| 0 <= k < |cont| && cont[k] == y;
      assert y.speaker == lines[k].speaker;
    }
  }

  // ---------------------------------------------------------------------
  // get_overlap_stamps
  // ---------------------------------------------------------------------

  /** The stamps of `cont` whose index is listed in `indices`, relabelled to
      the overlap speaker `spk`, in their order in `cont`. */
  function Selected(cont: seq<Stamp>, indices: seq<int>, spk: int): (r: seq<Stamp>)
    ensures |r| <= |cont|
    ensures forall x :: x in r ==> x.speaker == SpeakerTag(spk)
  {
    if cont == [] then []
    else
      var n := |cont| - 1;
      var rest := Selected(cont[..n], indices, spk);
      if n in indices then rest + [Stamp(cont[n].start, cont[n].end, SpeakerTag(spk))] else rest
  }

  /** What `get_overlap_stamps` returns: for each overlap speaker in turn,
      its selected stamps merged, when there are any. */
  function OverlapStamps(cont: seq<Stamp>, ovlSpkIdx: seq<seq<int>>): seq<Stamp>
  {
    if ovlSpkIdx == [] then []
    else
      var spk := |ovlSpkIdx| - 1;
      var sel := Selected(cont, ovlSpkIdx[spk], spk);
      OverlapStamps(cont, ovlSpkIdx[..spk]) + (if |sel| > 0 then Merged(sel) else [])
  }

  method GetOverlapStamps(cont: seq<Stamp>, ovlSpkIdx: seq<seq<int>>) returns (total: seq<Stamp>)
    ensures total == OverlapStamps(cont, ovlSpkIdx)
  {
    var lists: seq<seq<Stamp>> := [];
    for spkIdx := 0 to |ovlSpkIdx|
      invariant |lists| == spkIdx
      invariant forall k :: 0 <= k < spkIdx ==> lists[k] == Selected(cont, ovlSpkIdx[k], k)
    {
      var sel: seq<Stamp> := [];
      for idx := 0 to |cont|
        invariant sel == Selected(cont[..idx], ovlSpkIdx[spkIdx], spkIdx)
      {
        assert cont[..idx + 1][..idx] == cont[..idx];
        if idx in ovlSpkIdx[spkIdx] {
          sel := sel + [Stamp(cont[idx].start, cont[idx].end, SpeakerTag(spkIdx))];
        }
      }
      assert cont[..|cont|] == cont;
      lists := lists + [sel];
    }
    total := [];
    for k := 0 to |lists|
      invariant total == OverlapStamps(cont, ovlSpkIdx[..k])
    {
      assert ovlSpkIdx[..k + 1][..k] == ovlSpkIdx[..k];
      if |lists[k]| > 0 {
        var merged := MergeStamps(lists[k]);
        total := total + merged;
      }
    }
    assert ovlSpkIdx[..|ovlSpkIdx|] == ovlSpkIdx;
  }

  /** Every overlap stamp belongs to one of the overlap speakers. */
  lemma {:induction false} OverlapStampsSpeakers(cont: seq<Stamp>, ovlSpkIdx: seq<seq<int>>)
    ensures forall x :: x in OverlapStamps(cont, ovlSpkIdx) ==>
      exists k :: 0 <= k < |ovlSpkIdx| && x.speaker == SpeakerTag(k)
  {
    if ovlSpkIdx != [] {
      var spk := |ovlSpkIdx| - 1;
      var sel := Selected(cont, ovlSpkIdx[spk], spk);
      OverlapStampsSpeakers(cont, ovlSpkIdx[..spk]);
      MergedProperties(sel);
      forall x | x in OverlapStamps(cont, ovlSpkIdx)
        ensures exists k :: 0 <= k < |ovlSpkIdx| && x.speaker == SpeakerTag(k)
      {
        if x in OverlapStamps(cont, ovlSpkIdx[..spk]) {
          var k :| 0 <= k < spk && x.speaker == SpeakerTag(k);
        } else {
          assert x in Merged(sel);
          var y :| y in sel && y.speaker == x.speaker;
          assert x.speaker == SpeakerTag(spk);
        }
      }
    }
  }

  // ---------------------------------------------------------------------
  // generate_speaker_assignment_intervals
  // ---------------------------------------------------------------------

  /** The timestamps of the segments assigned to speaker `spk`, in segment
      order. */
  function Column(assign: seq<seq<bool>>, timestamps: seq<Range>, spk: nat): (r: seq<Range>)
    requires |timestamps| >= |assign|
    requires forall seg :: 0 <= seg < |assign| ==> spk < |assign[seg]|
    ensures |r| <= |assign|
  {
    if assign == [] then []
    else
      var n := |assign| - 1;
      Column(assign[..n], timestamps, spk) + (if assign[n][spk] then [timestamps[n]] else [])
  }

  /** `generate_speaker_assignment_intervals`: one list per speaker column
      of the assignment matrix, holding the timestamps of the segments whose
      row marks that speaker. */
  method GenerateSpeakerAssignmentIntervals(assign: seq<seq<bool>>, numSpeakers: nat, timestamps: seq<Range>)
    returns (assignment: seq<seq<Range>>)
    requires forall seg :: 0 <= seg < |assign| ==> |assign[seg]| == numSpeakers
    requires |timestamps| >= |assign|
    ensures |assignment| == numSpeakers
    ensures forall spk :: 0 <= spk < numSpeakers ==> assignment[spk] == Column(assign, timestamps, spk)
  {
    assignment := seq(numSpeakers, _ => []);
    for segIdx := 0 to |assign|
      invariant |assignment| == numSpeakers
      invariant forall spk :: 0 <= spk < numSpeakers ==> assignment[spk] == Column(assign[..segIdx], timestamps, spk)
    {
      assert assign[..segIdx + 1][..segIdx] == assign[..segIdx];
      var speakerVec := assign[segIdx];
      for spkIdx := 0 to numSpeakers
        invariant |assignment| == numSpeakers
        invariant forall spk :: 0 <= spk < spkIdx ==> assignment[spk] == Column(assign[..segIdx + 1], timestamps, spk)
        invariant forall spk :: spkIdx <= spk < numSpeakers ==> assignment[spk] == Column(assign[..segIdx], timestamps, spk)
      {
        if speakerVec[spkIdx] {
          assignment := assignment[spkIdx := assignment[spkIdx] + [timestamps[segIdx]]];
        }
      }
    }
    assert assign[..|assign|] == assign;
  }

  /** A timestamp is in a speaker's list exactly when some segment assigned
      to that speaker has it. */
  lemma {:induction false} ColumnMembers(assign: seq<seq<bool>>, timestamps: seq<Range>, spk: nat, x: Range)
    requires |timestamps| >= |assign|
    requires forall seg :: 0 <= seg < |assign| ==> spk < |assign[seg]|
    ensures x in Column(assign, timestamps, spk) <==>
      exists seg :: 0 <= seg < |assign| && assign[seg][spk] && timestamps[seg] == x
  {
    if assign != [] {
      var n := |assign| - 1;
      var init := assign[..n];
      ColumnMembers(init, timestamps, spk, x);
      if exists seg :: 0 <= seg < n && init[seg][spk] && timestamps[seg] == x {
        var seg :| 0 <= seg < n && init[seg][spk] && timestamps[seg] == x;
        assert assign[seg] == init[seg];
      }
      if exists seg :: 0 <= seg < |assign| && assign[seg][spk] && timestamps[seg] == x {
        var seg :| 0 <= seg < |assign| && assign[seg][spk] && timestamps[seg] == x;
        if seg < n {
          assert init[seg] == assign[seg];
        }
      }
    }
  }
}
