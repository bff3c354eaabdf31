/** Validation of the multiscale window/shift configuration of the diarizer
    (`parse_scale_configs`). A configuration value is either a bare float, a
    list of numbers, or something else (an integer, `None`, a string). */
module ScaleConfig {

  import opened Common

  datatype ConfigValue = FloatValue(x: real) | ListValue(items: seq<real>) | OtherValue

  /** The accepted configuration: scale index to (window, shift) in seconds,
      and the weight of each scale. */
  datatype MultiscaleArgs = MultiscaleArgs(
    useSingleScaleClustering: bool,
    scaleDict: map<int, (real, real)>,
    multiscaleWeights: seq<real>)

  const NotProperlySetUp := ValueError("Multiscale parameters are not properly setup.")
  const NeedAllLists := ValueError("You must provide a list config for all three parameters: window, shift and multiscale weights.")

  /** `list(xs) == sorted(xs)[::-1]`: the scales come from longest to shortest. */
  predicate NonIncreasing(xs: seq<real>)
  {
    forall i :: 0 <= i < |xs| - 1 ==> xs[i] >= xs[i + 1]
  }

  /** `all(w > s for w, s in zip(windows, shifts))`; `zip` stops at the shorter list. */
  predicate WindowsExceedShifts(windows: seq<real>, shifts: seq<real>)
  {
    forall i :: 0 <= i < |windows| && i < |shifts| ==> windows[i] > shifts[i]
  }

  /** The checks applied once the three parameters are lists. The shift check
      indexes `windows[0]` and `shifts[0]` when there is at most one window,
      which raises on empty lists before any `ValueError`. */
  function CheckScales(windows: seq<real>, shifts: seq<real>, weights: seq<real>): Result<Option<MultiscaleArgs>>
  {
    var lengthCheck := |windows| == |shifts| == |weights| && |weights| > 0;
    var orderCheck := NonIncreasing(windows) && NonIncreasing(shifts);
    if |windows| == 0 || (|windows| == 1 && |shifts| == 0) then Err(IndexError)
    else
      var shiftCheck := if |windows| > 1 then WindowsExceedShifts(windows, shifts) else windows[0] > shifts[0];
      if lengthCheck && orderCheck && shiftCheck then
        Ok(Some(MultiscaleArgs(false, map k | 0 <= k < |windows| :: (windows[k], shifts[k]), weights)))
      else
        Err(NotProperlySetUp)
  }

  function ParseScaleConfigs(window: ConfigValue, shift: ConfigValue, weights: ConfigValue): Result<Option<MultiscaleArgs>>
  {
    var allFloats := window.FloatValue? && shift.FloatValue?;
    var allLists := window.ListValue? && shift.ListValue? && weights.ListValue?;
    if allFloats then CheckScales([window.x], [shift.x], [1.0])
    else if allLists then CheckScales(window.items, shift.items, weights.items)
    else if window.ListValue? || shift.ListValue? || weights.ListValue? then Err(NeedAllLists)
    else Ok(None)
  }

  /** Two bare floats give the single scale `{0: (window, shift)}` with weight
      1.0, whatever the weights parameter holds, provided the window is longer
      than the shift. */
  lemma SingleScale(w: real, s: real, weights: ConfigValue)
    ensures w > s ==>
      ParseScaleConfigs(FloatValue(w), FloatValue(s), weights) == Ok(Some(MultiscaleArgs(false, map[0 := (w, s)], [1.0])))
    ensures w <= s ==> ParseScaleConfigs(FloatValue(w), FloatValue(s), weights) == Err(NotProperlySetUp)
  {
    if w > s {
      var m := map k | 0 <= k < |[w]| :: ([w][k], [s][k]);
      assert m.Keys == {0};
      assert m == map[0 := (w, s)];
    }
  }

  /** Three lists are accepted exactly when they have one common non-zero
      length, windows and shifts are each non-increasing and every window is
      longer than its shift; scale `k` is then `(windows[k], shifts[k])`. */
  lemma ListsAccepted(windows: seq<real>, shifts: seq<real>, weights: seq<real>)
    ensures var r := ParseScaleConfigs(ListValue(windows), ListValue(shifts), ListValue(weights));
      r.Ok? <==>
        (&& |windows| == |shifts| == |weights| > 0
         && NonIncreasing(windows) && NonIncreasing(shifts)
         && forall k :: 0 <= k < |windows| ==> windows[k] > shifts[k])
    ensures var r := ParseScaleConfigs(ListValue(windows), ListValue(shifts), ListValue(weights));
      r.Ok? ==>
        && r.value.Some?
        && (forall k :: k in r.value.value.scaleDict <==> 0 <= k < |windows|)
        && (forall k :: 0 <= k < |windows| ==> r.value.value.scaleDict[k] == (windows[k], shifts[k]))
        && r.value.value.multiscaleWeights == weights
        && !r.value.value.useSingleScaleClustering
  {
  }

  /** A rejected list configuration raises `IndexError` exactly when there is
      no window, or one window and no shift; otherwise `ValueError`. */
  lemma ListsRejected(windows: seq<real>, shifts: seq<real>, weights: seq<real>)
    ensures var r := ParseScaleConfigs(ListValue(windows), ListValue(shifts), ListValue(weights));
      r.Err? ==>
        (r.error == IndexError <==> |windows| == 0 || (|windows| == 1 && |shifts| == 0))
        && (r.error != IndexError ==> r.error == NotProperlySetUp)
  {
  }

  /** A list mixed with non-lists is refused; no list at all and not two
      floats means there is no multiscale configuration. */
  lemma MixedOrAbsent(window: ConfigValue, shift: ConfigValue, weights: ConfigValue)
    requires !(window.FloatValue? && shift.FloatValue?)
    requires !(window.ListValue? && shift.ListValue? && weights.ListValue?)
    ensures (window.ListValue? || shift.ListValue? || weights.ListValue?)
      ==> ParseScaleConfigs(window, shift, weights) == Err(NeedAllLists)
    ensures !(window.ListValue? || shift.ListValue? || weights.ListValue?)
      ==> ParseScaleConfigs(window, shift, weights) == Ok(None)
  {
  }

  /** Whatever form the parameters take, an accepted configuration numbers
      its scales 0..n-1, has one weight per scale, orders the scales from the
      longest window and shift to the shortest, and every window is longer
      than its shift. */
  lemma AcceptedScalesOrdered(window: ConfigValue, shift: ConfigValue, weights: ConfigValue)
    ensures var r := ParseScaleConfigs(window, shift, weights);
      r.Ok? && r.value.Some? ==>
        var d := r.value.value.scaleDict;
        var n := |r.value.value.multiscaleWeights|;
        && n > 0
        && (forall k :: k in d <==> 0 <= k < n)
        && (forall k :: 0 <= k < n ==> d[k].0 > d[k].1)
        && (forall k :: 0 <= k < n - 1 ==> d[k].0 >= d[k + 1].0 && d[k].1 >= d[k + 1].1)
  {
  }
}
