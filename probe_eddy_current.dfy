/** The eddy-current Z probe: the frequency-to-height calibration table
    with its bisect lookups and linear interpolation, and the gathering of
    sensor batches into averaged frequencies and probed positions. */
module ProbeEddyCurrent {
  import opened Wrappers
  import Sorting

  /** Height reported for a frequency outside the calibration table. */
  const OUT_OF_RANGE: real := 99.9

  predicate Ascending(a: seq<real>)
  {
    Sorting.SortedBy(a, Sorting.RealLe)
  }

  /** Python's `bisect.bisect` (bisect_right) on `a[lo..hi]`: binary search
      for the first element greater than `x`. */
  function BisectFrom(a: seq<real>, x: real, lo: nat, hi: nat): (pos: nat)
    requires lo <= hi <= |a|
    ensures lo <= pos <= hi
    decreases hi - lo
  {
    if lo >= hi then lo
    else
      var mid := (lo + hi) / 2;
      if x < a[mid] then BisectFrom(a, x, lo, mid) else BisectFrom(a, x, mid + 1, hi)
  }

  function Bisect(a: seq<real>, x: real): (pos: nat)
    ensures pos <= |a|
  {
    BisectFrom(a, x, 0, |a|)
  }

  lemma {:induction false} BisectFromMeaning(a: seq<real>, x: real, lo: nat, hi: nat)
    requires lo <= hi <= |a| && Ascending(a)
    requires forall i :: 0 <= i < lo ==> a[i] <= x
    requires forall i :: hi <= i < |a| ==> x < a[i]
    ensures forall i :: 0 <= i < BisectFrom(a, x, lo, hi) ==> a[i] <= x
    ensures forall i :: BisectFrom(a, x, lo, hi) <= i < |a| ==> x < a[i]
    decreases hi - lo
  {
    if lo < hi {
      var mid := (lo + hi) / 2;
      if x < a[mid] {
        assert forall i :: mid <= i < |a| ==> x < a[i] by {
          forall i | mid <= i < |a| ensures x < a[i] {
            assert Sorting.RealLe(a[mid], a[i]) || i == mid;
          }
        }
        BisectFromMeaning(a, x, lo, mid);
      } else {
        assert forall i :: 0 <= i < mid + 1 ==> a[i] <= x by {
          forall i | 0 <= i < mid + 1 ensures a[i] <= x {
            assert Sorting.RealLe(a[i], a[mid]) || i == mid;
          }
        }
        BisectFromMeaning(a, x, mid + 1, hi);
      }
    }
  }

  /** On an ascending table the insertion point splits it into the entries
      at most `x` and the entries above `x`. */
  lemma {:induction false} BisectMeaning(a: seq<real>, x: real)
    requires Ascending(a)
    ensures forall i :: 0 <= i < Bisect(a, x) ==> a[i] <= x
    ensures forall i :: Bisect(a, x) <= i < |a| ==> x < a[i]
  {
    BisectFromMeaning(a, x, 0, |a|);
  }

  /** The height for one frequency (`apply_calibration` on one sample, and
      `freq_to_height`): a sentinel outside the table, otherwise the linear
      interpolation between the two entries around `freq`. */
  function FreqToHeight(freqs: seq<real>, zpos: seq<real>, freq: real): real
    requires |freqs| == |zpos| && Ascending(freqs)
  {
    var pos := Bisect(freqs, freq);
    if pos >= |zpos| then -OUT_OF_RANGE
    else if pos == 0 then OUT_OF_RANGE
    else
      BisectMeaning(freqs, freq);
      Interpolate(freqs[pos - 1], zpos[pos - 1], freqs[pos], zpos[pos], freq)
  }

  /** The three cases of the lookup: at or above the last entry (or an empty
      table) gives -99.9, below the first gives 99.9, anything else lies on
      the segment between consecutive entries `i - 1` and `i`. */
  lemma {:induction false} FreqToHeightMeaning(freqs: seq<real>, zpos: seq<real>, freq: real)
    requires |freqs| == |zpos| && Ascending(freqs)
    ensures |freqs| == 0 || freq >= freqs[|freqs| - 1] ==> FreqToHeight(freqs, zpos, freq) == -OUT_OF_RANGE
    ensures |freqs| > 0 && freq < freqs[0] ==> FreqToHeight(freqs, zpos, freq) == OUT_OF_RANGE
    ensures |freqs| > 0 && freqs[0] <= freq < freqs[|freqs| - 1] ==>
              exists i :: 0 < i < |freqs| && freqs[i - 1] <= freq < freqs[i] &&
                OnSegment(freqs[i - 1], zpos[i - 1], freqs[i], zpos[i], freq, FreqToHeight(freqs, zpos, freq))
  {
    BisectMeaning(freqs, freq);
    var pos := Bisect(freqs, freq);
    var n := |freqs|;
    if n > 0 && freqs[0] <= freq < freqs[n - 1] {
      assert 0 < pos < n;
      InterpolateOnSegment(freqs[pos - 1], zpos[pos - 1], freqs[pos], zpos[pos], freq);
    }
  }

  /** `(x, y)` lies on the line through `(x0, y0)` and `(x1, y1)`. */
  predicate OnSegment(x0: real, y0: real, x1: real, y1: real, x: real, y: real)
  {
    (y - y0) * (x1 - x0) == (x - x0) * (y1 - y0)
  }

  /** The gain/offset form of the interpolation used by both lookups. */
  function Interpolate(x0: real, y0: real, x1: real, y1: real, x: real): real
    requires x1 != x0
  {
    var gain := (y1 - y0) / (x1 - x0);
    var offset := y0 - x0 * gain;
    x * gain + offset
  }

  lemma {:induction false} InterpolateOnSegment(x0: real, y0: real, x1: real, y1: real, x: real)
    requires x1 != x0
    ensures OnSegment(x0, y0, x1, y1, x, Interpolate(x0, y0, x1, y1, x))
    ensures Interpolate(x0, y0, x1, y1, x0) == y0 && Interpolate(x0, y0, x1, y1, x1) == y1
  {
    var gain := (y1 - y0) / (x1 - x0);
    assert gain * (x1 - x0) == y1 - y0;
    assert Interpolate(x0, y0, x1, y1, x) - y0 == (x - x0) * gain;
  }

  predicate StrictlyAscending(a: seq<real>)
  {
    forall i, j :: 0 <= i < j < |a| ==> a[i] < a[j]
  }

  predicate StrictlyDescending(a: seq<real>)
  {
    forall i, j :: 0 <= i < j < |a| ==> a[i] > a[j]
  }

  /** With distinct frequencies every entry but the last maps back to its
      own height. */
  lemma {:induction false} FreqToHeightAtEntry(freqs: seq<real>, zpos: seq<real>, i: nat)
    requires |freqs| == |zpos| && StrictlyAscending(freqs) && i + 1 < |freqs|
    ensures Ascending(freqs)
    ensures FreqToHeight(freqs, zpos, freqs[i]) == zpos[i]
  {
    BisectMeaning(freqs, freqs[i]);
    var pos := Bisect(freqs, freqs[i]);
    assert freqs[i] < freqs[i + 1];
    assert pos == i + 1;
    InterpolateOnSegment(freqs[i], zpos[i], freqs[i + 1], zpos[i + 1], freqs[i]);
  }

  function Reverse(s: seq<real>): (r: seq<real>)
    ensures |r| == |s| && forall i :: 0 <= i < |s| ==> r[i] == s[|s| - 1 - i]
  {
    seq(|s|, i requires 0 <= i < |s| => s[|s| - 1 - i])
  }

  datatype HeightError = InvalidHeight | DivisionByZero

  /** `height_to_freq`: bisect the reversed heights; an insertion point at
      either end is an invalid height, two equal neighbouring heights divide
      by zero, otherwise interpolate between the neighbours. */
  function HeightToFreq(freqs: seq<real>, zpos: seq<real>, height: real): Result<real, HeightError>
    requires |freqs| == |zpos|
  {
    var revZpos, revFreqs := Reverse(zpos), Reverse(freqs);
    var pos := Bisect(revZpos, height);
    if pos == 0 || pos >= |revZpos| then Err(InvalidHeight)
    else if revZpos[pos] == revZpos[pos - 1] then Err(DivisionByZero)
    else Ok(Interpolate(revZpos[pos - 1], revFreqs[pos - 1], revZpos[pos], revFreqs[pos], height))
  }

  /** For heights that fall as the frequency rises, a height is accepted
      exactly when it lies in [last height, first height), and the result
      lies on the segment between the two entries around it. */
  lemma {:induction false} HeightToFreqMeaning(freqs: seq<real>, zpos: seq<real>, height: real)
    requires |freqs| == |zpos| && StrictlyDescending(zpos)
    ensures HeightToFreq(freqs, zpos, height).Ok? <==> |zpos| > 0 && zpos[|zpos| - 1] <= height < zpos[0]
    ensures HeightToFreq(freqs, zpos, height).Ok? ==>
              exists j :: 0 <= j < |zpos| - 1 && zpos[j + 1] <= height < zpos[j] &&
                OnSegment(zpos[j + 1], freqs[j + 1], zpos[j], freqs[j], height, HeightToFreq(freqs, zpos, height).value)
  {
    var n := |zpos|;
    var revZpos := Reverse(zpos);
    assert Ascending(revZpos) by {
      forall i, j | 0 <= i < j < n ensures Sorting.RealLe(revZpos[i], revZpos[j]) {
        assert zpos[n - 1 - j] > zpos[n - 1 - i];
      }
    }
    BisectMeaning(revZpos, height);
    var pos := Bisect(revZpos, height);
    if 0 < pos < n {
      assert revZpos[pos - 1] <= height < revZpos[pos];
      var j := n - 1 - pos;
      InterpolateOnSegment(revZpos[pos - 1], Reverse(freqs)[pos - 1], revZpos[pos], Reverse(freqs)[pos], height);
      assert zpos[j + 1] <= height < zpos[j];
    }
    if n > 0 && zpos[n - 1] <= height < zpos[0] {
      assert revZpos[0] <= height < revZpos[n - 1];
    }
  }

  /** Two points of a line with distinct first coordinates fix it: the
      line through the two entries meets `x` once, whichever way round the
      entries are given and whichever coordinate is treated as the input. */
  lemma {:induction false} OnSegmentUnique(x0: real, y0: real, x1: real, y1: real, x: real, y: real, y': real)
    requires x1 != x0 && OnSegment(x0, y0, x1, y1, x, y) && OnSegment(x0, y0, x1, y1, x, y')
    ensures y == y'
  {
    assert (y - y') * (x1 - x0) == 0.0;
  }

  lemma {:induction false} OnSegmentSymmetric(x0: real, y0: real, x1: real, y1: real, x: real, y: real)
    ensures OnSegment(x0, y0, x1, y1, x, y) <==> OnSegment(x1, y1, x0, y0, x, y)
    ensures OnSegment(x0, y0, x1, y1, x, y) <==> OnSegment(y0, x0, y1, x1, y, x)
  {
    assert (y - y1) * (x0 - x1) - (x - x1) * (y0 - y1) == -((y - y0) * (x1 - x0) - (x - x0) * (y1 - y0));
  }

  /** On a segment whose heights fall, a frequency in [f0, f1) gives a
      height in (z1, z0], and the top height only at f0. */
  lemma {:induction false} SegmentRange(f0: real, z0: real, f1: real, z1: real, f: real, z: real)
    requires f0 <= f < f1 && z1 < z0 && OnSegment(f0, z0, f1, z1, f, z)
    ensures z1 < z <= z0 && (z == z0 ==> f == f0)
  {
    var d := f1 - f0;
    assert (z - z1) * d == (z0 - z1) * (f1 - f);
    assert (z0 - z) * d == (f - f0) * (z0 - z1);
    PositiveFactor(z - z1, d);
    PositiveFactor(z0 - z, d);
    PositiveFactor(f - f0, z0 - z1);
  }

  lemma {:induction false} PositiveFactor(a: real, d: real)
    requires d > 0.0
    ensures a * d > 0.0 ==> a > 0.0
    ensures a * d >= 0.0 ==> a >= 0.0
    ensures a * d == 0.0 ==> a == 0.0
  {
    if a < 0.0 {
      assert a * d < 0.0;
    } else if a > 0.0 {
      assert a * d > 0.0;
    }
  }

  /** Falling heights put a height in at most one segment [z[j+1], z[j]). */
  lemma {:induction false} SegmentIndexUnique(zpos: seq<real>, h: real, j: nat, k: nat)
    requires StrictlyDescending(zpos) && j + 1 < |zpos| && k + 1 < |zpos|
    requires zpos[j + 1] <= h < zpos[j] && zpos[k + 1] <= h < zpos[k]
    ensures j == k
  {
  }

  lemma {:induction false} OnSegmentAtStart(x0: real, y0: real, x1: real, y1: real, y: real)
    requires x1 != x0 && OnSegment(x0, y0, x1, y1, x0, y)
    ensures y == y0
  {
    PositiveFactor(y - y0, if x1 > x0 then x1 - x0 else x0 - x1);
  }

  /** The height of a frequency in segment `i` comes back to the same
      frequency through whichever segment `j` the reverse lookup picks. */
  lemma {:induction false} SegmentRoundTrip(freqs: seq<real>, zpos: seq<real>, f: real, h: real, i: nat, j: nat, r: real)
    requires |freqs| == |zpos| && StrictlyAscending(freqs) && StrictlyDescending(zpos)
    requires 0 < i < |freqs| && freqs[0] < f && freqs[i - 1] <= f < freqs[i]
    requires OnSegment(freqs[i - 1], zpos[i - 1], freqs[i], zpos[i], f, h)
    requires j + 1 < |zpos| && zpos[j + 1] <= h < zpos[j]
    requires OnSegment(zpos[j + 1], freqs[j + 1], zpos[j], freqs[j], h, r)
    ensures r == f
  {
    SegmentRange(freqs[i - 1], zpos[i - 1], freqs[i], zpos[i], f, h);
    if h < zpos[i - 1] {
      SegmentIndexUnique(zpos, h, j, i - 1);
      OnSegmentSymmetric(freqs[i - 1], zpos[i - 1], freqs[i], zpos[i], f, h);
      OnSegmentSymmetric(zpos[i - 1], freqs[i - 1], zpos[i], freqs[i], h, f);
      OnSegmentUnique(zpos[i], freqs[i], zpos[i - 1], freqs[i - 1], h, f, r);
    } else {
      assert f == freqs[i - 1] && i >= 2;
      assert zpos[i - 1] < zpos[i - 2];
      SegmentIndexUnique(zpos, h, j, i - 2);
      OnSegmentAtStart(zpos[j + 1], freqs[j + 1], zpos[j], freqs[j], r);
    }
  }

  /** Heights and frequencies are inverse lookups: for a table whose
      frequencies rise and heights fall, a frequency strictly inside the
      table survives the trip to a height and back. */
  lemma {:induction false} FreqHeightRoundTrip(freqs: seq<real>, zpos: seq<real>, f: real)
    requires |freqs| == |zpos| && StrictlyAscending(freqs) && StrictlyDescending(zpos)
    requires |freqs| > 0 && freqs[0] < f < freqs[|freqs| - 1]
    ensures Ascending(freqs)
    ensures HeightToFreq(freqs, zpos, FreqToHeight(freqs, zpos, f)) == Ok(f)
  {
    var n := |freqs|;
    assert Ascending(freqs);
    FreqToHeightMeaning(freqs, zpos, f);
    var h := FreqToHeight(freqs, zpos, f);
    var i :| 0 < i < n && freqs[i - 1] <= f < freqs[i] &&
             OnSegment(freqs[i - 1], zpos[i - 1], freqs[i], zpos[i], f, h);
    BackFromSegment(freqs, zpos, f, h, i);
  }

  /** The height of a frequency on segment `i` maps back to the frequency. */
  lemma {:induction false} BackFromSegment(freqs: seq<real>, zpos: seq<real>, f: real, h: real, i: nat)
    requires |freqs| == |zpos| && StrictlyAscending(freqs) && StrictlyDescending(zpos)
    requires 0 < i < |freqs| && freqs[0] < f && freqs[i - 1] <= f < freqs[i]
    requires OnSegment(freqs[i - 1], zpos[i - 1], freqs[i], zpos[i], f, h)
    ensures HeightToFreq(freqs, zpos, h) == Ok(f)
  {
    var n := |freqs|;
    HeightInTable(freqs, zpos, f, h, i);
    HeightToFreqMeaning(freqs, zpos, h);
    var r := HeightToFreq(freqs, zpos, h);
    assert r.Ok?;
    var j :| 0 <= j < n - 1 && zpos[j + 1] <= h < zpos[j] &&
             OnSegment(zpos[j + 1], freqs[j + 1], zpos[j], freqs[j], h, r.value);
    SegmentRoundTrip(freqs, zpos, f, h, i, j, r.value);
  }

  /** The height of a frequency inside the table lies inside the table's
      height range. */
  lemma {:induction false} HeightInTable(freqs: seq<real>, zpos: seq<real>, f: real, h: real, i: nat)
    requires |freqs| == |zpos| && StrictlyAscending(freqs) && StrictlyDescending(zpos)
    requires 0 < i < |freqs| && freqs[0] < f && freqs[i - 1] <= f < freqs[i]
    requires OnSegment(freqs[i - 1], zpos[i - 1], freqs[i], zpos[i], f, h)
    ensures zpos[|zpos| - 1] <= h < zpos[0]
  {
    var n := |freqs|;
    SegmentRange(freqs[i - 1], zpos[i - 1], freqs[i], zpos[i], f, h);
    assert zpos[n - 1] <= zpos[i] && zpos[i - 1] <= zpos[0];
    if h == zpos[i - 1] {
      assert f == freqs[i - 1] && i >= 2;
      assert zpos[i - 1] < zpos[0];
    }
  }

  /** One sensor reading: its time, the measured frequency and the height
      derived from it. */
  datatype EddySample = EddySample(time: real, freq: real, z: real)

  function Zip(a: seq<real>, b: seq<real>): (r: seq<(real, real)>)
    requires |a| == |b|
    ensures |r| == |a| && forall i :: 0 <= i < |a| ==> r[i] == (a[i], b[i])
  {
    seq(|a|, i requires 0 <= i < |a| => (a[i], b[i]))
  }

  /** The configured points as (frequency, height) pairs. */
  function Swapped(cal: seq<(real, real)>): (r: seq<(real, real)>)
    ensures |r| == |cal| && forall i :: 0 <= i < |cal| ==> r[i] == (cal[i].1, cal[i].0)
  {
    seq(|cal|, i requires 0 <= i < |cal| => (cal[i].1, cal[i].0))
  }

  /** The calibration table of `EddyCalibration`: parallel lists of
      frequencies and heights, ascending in frequency. */
  class EddyCalibration {
    var calFreqs: seq<real>
    var calZpos: seq<real>

    predicate Valid()
      reads this
    {
      |calFreqs| == |calZpos| && Ascending(calFreqs)
    }

    constructor ()
      ensures Valid() && calFreqs == [] && calZpos == []
    {
      calFreqs := [];
      calZpos := [];
    }

    /** `is_calibrated`: more than two points. */
    predicate IsCalibrated()
      reads this
    {
      |calFreqs| > 2
    }

    /** `load_calibration`: the (height, frequency) points, swapped to
        (frequency, height) and sorted as tuples, split into the two
        parallel lists. */
    method LoadCalibration(cal: seq<(real, real)>)
      modifies this
      ensures Valid() && |calFreqs| == |cal|
      ensures Sorting.SortedBy(Zip(calFreqs, calZpos), Sorting.PairLe)
      ensures multiset(Zip(calFreqs, calZpos)) == multiset(Swapped(cal))
    {
      var sorted := Sorting.Sort(Swapped(cal), Sorting.PairLe);
      Sorting.PairLeTotal();
      Sorting.SortSorted(Swapped(cal), Sorting.PairLe);
      calFreqs := seq(|sorted|, i requires 0 <= i < |sorted| => sorted[i].0);
      calZpos := seq(|sorted|, i requires 0 <= i < |sorted| => sorted[i].1);
      assert Zip(calFreqs, calZpos) == sorted;
      forall i, j | 0 <= i < j < |calFreqs| ensures Sorting.RealLe(calFreqs[i], calFreqs[j]) {
        assert Sorting.PairLe(sorted[i], sorted[j]);
      }
    }

    /** `apply_calibration`: replace the height of every sample by the
        lookup of its frequency, leaving time and frequency alone. */
    method ApplyCalibration(samples: array<EddySample>)
      requires Valid()
      modifies samples
      ensures forall i :: 0 <= i < samples.Length ==>
                samples[i] == old(samples[i]).(z := FreqToHeight(calFreqs, calZpos, old(samples[i]).freq))
    {
      for i := 0 to samples.Length
        invariant forall k :: 0 <= k < i ==>
                    samples[k] == old(samples[k]).(z := FreqToHeight(calFreqs, calZpos, old(samples[k]).freq))
        invariant forall k :: i <= k < samples.Length ==> samples[k] == old(samples[k])
      {
        var s := samples[i];
        samples[i] := EddySample(s.time, s.freq, FreqToHeight(calFreqs, calZpos, s.freq));
      }
    }
  }

  /** One bulk message from the sensor: a non-empty batch of samples. */
  type Message = seq<EddySample>

  predicate AllNonEmpty(msgs: seq<Message>)
  {
    forall i :: 0 <= i < |msgs| ==> |msgs[i]| > 0
  }

  function FirstTime(m: Message): real
    requires |m| > 0
  {
    m[0].time
  }

  function LastTime(m: Message): real
    requires |m| > 0
  {
    m[|m| - 1].time
  }

  /** How many messages `_pull_freq` looks at: it stops at the first one
      that starts after `endTime`. */
  function ScanLength(msgs: seq<Message>, endTime: real): (k: nat)
    requires AllNonEmpty(msgs)
    ensures k <= |msgs|
  {
    if msgs == [] || FirstTime(msgs[0]) > endTime then 0
    else 1 + ScanLength(msgs[1..], endTime)
  }

  lemma {:induction false} ScanLengthMeaning(msgs: seq<Message>, endTime: real)
    requires AllNonEmpty(msgs)
    ensures forall i :: 0 <= i < ScanLength(msgs, endTime) ==> FirstTime(msgs[i]) <= endTime
    ensures ScanLength(msgs, endTime) < |msgs| ==> FirstTime(msgs[ScanLength(msgs, endTime)]) > endTime
  {
    if msgs != [] && FirstTime(msgs[0]) <= endTime {
      ScanLengthMeaning(msgs[1..], endTime);
      forall i | 0 < i < ScanLength(msgs, endTime) ensures FirstTime(msgs[i]) <= endTime {
        assert msgs[i] == msgs[1..][i - 1];
      }
    }
  }

  /** The first scan position with the two properties above is the scan length. */
  lemma {:induction false} ScanLengthIs(msgs: seq<Message>, endTime: real, k: nat)
    requires AllNonEmpty(msgs) && k <= |msgs|
    requires forall i :: 0 <= i < k ==> FirstTime(msgs[i]) <= endTime
    requires k < |msgs| ==> FirstTime(msgs[k]) > endTime
    ensures ScanLength(msgs, endTime) == k
  {
    ScanLengthMeaning(msgs, endTime);
  }

  predicate InWindow(s: EddySample, startTime: real, endTime: real)
  {
    startTime <= s.time <= endTime
  }

  /** Sum and number of the frequencies of one message inside the window. */
  function WindowSum(data: seq<EddySample>, startTime: real, endTime: real): real
  {
    if data == [] then 0.0
    else WindowSum(data[..|data| - 1], startTime, endTime)
         + (if InWindow(data[|data| - 1], startTime, endTime) then data[|data| - 1].freq else 0.0)
  }

  function WindowCount(data: seq<EddySample>, startTime: real, endTime: real): nat
  {
    if data == [] then 0
    else WindowCount(data[..|data| - 1], startTime, endTime)
         + (if InWindow(data[|data| - 1], startTime, endTime) then 1 else 0)
  }

  /** A message that ended before the window contributes nothing. */
  predicate Skipped(m: Message, startTime: real)
    requires |m| > 0
  {
    LastTime(m) < startTime
  }

  function MsgsSum(msgs: seq<Message>, startTime: real, endTime: real): real
    requires AllNonEmpty(msgs)
  {
    if msgs == [] then 0.0
    else MsgsSum(msgs[..|msgs| - 1], startTime, endTime)
         + (if Skipped(msgs[|msgs| - 1], startTime) then 0.0 else WindowSum(msgs[|msgs| - 1], startTime, endTime))
  }

  function MsgsCount(msgs: seq<Message>, startTime: real, endTime: real): nat
    requires AllNonEmpty(msgs)
  {
    if msgs == [] then 0
    else MsgsCount(msgs[..|msgs| - 1], startTime, endTime)
         + (if Skipped(msgs[|msgs| - 1], startTime) then 0 else WindowCount(msgs[|msgs| - 1], startTime, endTime))
  }

  /** Number of leading messages `_pull_freq` deletes: up to and including
      the last one that ended before the window. */
  function Discard(msgs: seq<Message>, startTime: real): (d: nat)
    requires AllNonEmpty(msgs)
    ensures d <= |msgs|
  {
    if msgs == [] then 0
    else if Skipped(msgs[|msgs| - 1], startTime) then |msgs|
    else Discard(msgs[..|msgs| - 1], startTime)
  }

  /** The cut falls just after a message that ended before the window, and
      no message after the cut ended before it. */
  lemma {:induction false} DiscardMeaning(msgs: seq<Message>, startTime: real)
    requires AllNonEmpty(msgs)
    ensures Discard(msgs, startTime) > 0 ==> Skipped(msgs[Discard(msgs, startTime) - 1], startTime)
    ensures forall i :: Discard(msgs, startTime) <= i < |msgs| ==> !Skipped(msgs[i], startTime)
  {
    if msgs != [] && !Skipped(msgs[|msgs| - 1], startTime) {
      var pre := msgs[..|msgs| - 1];
      DiscardMeaning(pre, startTime);
      assert forall i :: 0 <= i < |pre| ==> pre[i] == msgs[i];
    }
  }

  /** The average, or 0 when nothing was in the window. */
  function Mean(sum: real, count: nat): real
  {
    if count == 0 then 0.0 else sum / count as real
  }

  /** Every frequency inside the window lies in [lo, hi]. */
  predicate MsgWithin(m: Message, startTime: real, endTime: real, lo: real, hi: real)
  {
    forall j :: 0 <= j < |m| && InWindow(m[j], startTime, endTime) ==> lo <= m[j].freq <= hi
  }

  predicate FreqsWithin(msgs: seq<Message>, startTime: real, endTime: real, lo: real, hi: real)
  {
    forall i :: 0 <= i < |msgs| ==> MsgWithin(msgs[i], startTime, endTime, lo, hi)
  }

  /** `n` copies of `x` added up (n * x, kept linear for the solver). */
  function Times(n: nat, x: real): real
  {
    if n == 0 then 0.0 else Times(n - 1, x) + x
  }

  lemma {:induction false} TimesAdd(a: nat, b: nat, x: real)
    ensures Times(a + b, x) == Times(a, x) + Times(b, x)
  {
    if b > 0 {
      TimesAdd(a, b - 1, x);
    }
  }

  lemma {:induction false} TimesIsProduct(n: nat, x: real)
    ensures Times(n, x) == n as real * x
  {
    if n > 0 {
      TimesIsProduct(n - 1, x);
      assert n as real * x == (n - 1) as real * x + x;
    }
  }

  lemma {:induction false} WindowBounds(data: seq<EddySample>, startTime: real, endTime: real, lo: real, hi: real)
    requires MsgWithin(data, startTime, endTime, lo, hi)
    ensures Times(WindowCount(data, startTime, endTime), lo) <= WindowSum(data, startTime, endTime)
    ensures WindowSum(data, startTime, endTime) <= Times(WindowCount(data, startTime, endTime), hi)
  {
    if data != [] {
      var n := |data| - 1;
      var pre := data[..n];
      assert forall j :: 0 <= j < n ==> pre[j] == data[j];
      WindowBounds(pre, startTime, endTime, lo, hi);
      var c := WindowCount(pre, startTime, endTime);
      if InWindow(data[n], startTime, endTime) {
        TimesAdd(c, 1, lo);
        TimesAdd(c, 1, hi);
      }
    }
  }

  lemma {:induction false} MsgsBounds(msgs: seq<Message>, startTime: real, endTime: real, lo: real, hi: real)
    requires AllNonEmpty(msgs) && FreqsWithin(msgs, startTime, endTime, lo, hi)
    ensures Times(MsgsCount(msgs, startTime, endTime), lo) <= MsgsSum(msgs, startTime, endTime)
    ensures MsgsSum(msgs, startTime, endTime) <= Times(MsgsCount(msgs, startTime, endTime), hi)
  {
    if msgs != [] {
      var n := |msgs| - 1;
      var pre := msgs[..n];
      assert forall i :: 0 <= i < n ==> pre[i] == msgs[i];
      MsgsBounds(pre, startTime, endTime, lo, hi);
      if !Skipped(msgs[n], startTime) {
        WindowBounds(msgs[n], startTime, endTime, lo, hi);
        var c, w := MsgsCount(pre, startTime, endTime), WindowCount(msgs[n], startTime, endTime);
        TimesAdd(c, w, lo);
        TimesAdd(c, w, hi);
      }
    }
  }

  /** The average lies between the smallest and largest frequency averaged. */
  lemma {:induction false} MeanBounds(msgs: seq<Message>, startTime: real, endTime: real, lo: real, hi: real)
    requires AllNonEmpty(msgs) && FreqsWithin(msgs, startTime, endTime, lo, hi)
    requires MsgsCount(msgs, startTime, endTime) > 0
    ensures lo <= Mean(MsgsSum(msgs, startTime, endTime), MsgsCount(msgs, startTime, endTime)) <= hi
  {
    MsgsBounds(msgs, startTime, endTime, lo, hi);
    var n := MsgsCount(msgs, startTime, endTime);
    TimesIsProduct(n, lo);
    TimesIsProduct(n, hi);
    QuotientBetween(MsgsSum(msgs, startTime, endTime), n as real, lo, hi);
  }

  lemma {:induction false} QuotientBetween(sum: real, c: real, lo: real, hi: real)
    requires c > 0.0 && c * lo <= sum <= c * hi
    ensures lo <= sum / c <= hi
  {
    var m := sum / c;
    assert m * c == sum;
    assert (m - lo) * c == sum - c * lo;
    assert (hi - m) * c == c * hi - sum;
    PositiveFactor(m - lo, c);
    PositiveFactor(hi - m, c);
  }

  /** Where a probe's toolhead position comes from: given with the probe
      (`note_probe`) or looked up at a print time (`note_probe_and_position`). */
  datatype PosSource = Given(pos: seq<real>) | AtTime(posTime: real)
  datatype ProbeTime = ProbeTime(startTime: real, endTime: real, source: PosSource)
  datatype ProbeResult = ProbeResult(freq: real, pos: seq<real>)
  datatype ProbeError = NoReadings | NotInRange

  /** A position with a Z coordinate. */
  predicate HasZ(pos: seq<real>)
  {
    |pos| >= 3
  }

  /** The toolhead position recorded for a probe; `lookup` stands for the
      kinematics' position at a past print time. */
  function PositionOf(pt: ProbeTime, lookup: real -> seq<real>): seq<real>
  {
    match pt.source
    case Given(pos) => pos
    case AtTime(t) => lookup(t)
  }

  /** The probed position: Z replaced by the offset plus how far the
      toolhead was above the height the sensor measured. */
  function Adjusted(pos: seq<real>, sensorZ: real, zOffset: real): seq<real>
    requires HasZ(pos)
  {
    pos[2 := zOffset + (pos[2] - sensorZ)]
  }

  predicate ResultsHaveZ(results: seq<ProbeResult>)
  {
    forall i :: 0 <= i < |results| ==> HasZ(results[i].pos)
  }

  /** What `pull_probed` returns for `results`, processed in order: the
      first result without a reading or out of the table's range stops it
      with an error. */
  function Probed(results: seq<ProbeResult>, freqs: seq<real>, zpos: seq<real>, zOffset: real)
    : Result<seq<seq<real>>, ProbeError>
    requires |freqs| == |zpos| && Ascending(freqs) && ResultsHaveZ(results)
  {
    if results == [] then Ok([])
    else
      var last := results[|results| - 1];
      match Probed(results[..|results| - 1], freqs, zpos, zOffset)
      case Err(e) => Err(e)
      case Ok(done) =>
        if last.freq == 0.0 then Err(NoReadings)
        else
          var sensorZ := FreqToHeight(freqs, zpos, last.freq);
          if sensorZ <= -OUT_OF_RANGE || sensorZ >= OUT_OF_RANGE then Err(NotInRange)
          else Ok(done + [Adjusted(last.pos, sensorZ, zOffset)])
  }

  /** A result is accepted when it has a reading whose height is strictly
      inside the sentinels. */
  predicate Acceptable(r: ProbeResult, freqs: seq<real>, zpos: seq<real>)
    requires |freqs| == |zpos| && Ascending(freqs)
  {
    r.freq != 0.0 && -OUT_OF_RANGE < FreqToHeight(freqs, zpos, r.freq) < OUT_OF_RANGE
  }

  /** `pull_probed` succeeds exactly when every result is acceptable, and
      then returns each position with its Z corrected, in order. */
  lemma {:induction false} ProbedMeaning(results: seq<ProbeResult>, freqs: seq<real>, zpos: seq<real>, zOffset: real)
    requires |freqs| == |zpos| && Ascending(freqs) && ResultsHaveZ(results)
    ensures Probed(results, freqs, zpos, zOffset).Ok? <==>
              forall k :: 0 <= k < |results| ==> Acceptable(results[k], freqs, zpos)
    ensures Probed(results, freqs, zpos, zOffset).Ok? ==>
              var out := Probed(results, freqs, zpos, zOffset).value;
              |out| == |results| &&
              forall k :: 0 <= k < |results| ==>
                out[k] == Adjusted(results[k].pos, FreqToHeight(freqs, zpos, results[k].freq), zOffset)
  {
    if results != [] {
      var n := |results| - 1;
      var pre := results[..n];
      assert forall k :: 0 <= k < n ==> pre[k] == results[k];
      ProbedMeaning(pre, freqs, zpos, zOffset);
    }
  }

  /** An accepted reading lies inside the table: frequencies outside it
      map to the sentinels, which are rejected. */
  lemma {:induction false} AcceptedInsideTable(r: ProbeResult, freqs: seq<real>, zpos: seq<real>)
    requires |freqs| == |zpos| && Ascending(freqs) && Acceptable(r, freqs, zpos)
    ensures |freqs| > 0 && freqs[0] <= r.freq < freqs[|freqs| - 1]
  {
    FreqToHeightMeaning(freqs, zpos, r.freq);
  }

  lemma {:induction false} ProbedErrExtends(results: seq<ProbeResult>, k: nat, freqs: seq<real>, zpos: seq<real>, zOffset: real)
    requires |freqs| == |zpos| && Ascending(freqs) && ResultsHaveZ(results) && k <= |results|
    requires ResultsHaveZ(results[..k]) && Probed(results[..k], freqs, zpos, zOffset).Err?
    ensures Probed(results, freqs, zpos, zOffset) == Probed(results[..k], freqs, zpos, zOffset)
    decreases |results| - k
  {
    if k < |results| {
      var pre := results[..k + 1];
      assert pre[..k] == results[..k];
      assert ResultsHaveZ(pre);
      ProbedErrExtends(results, k + 1, freqs, zpos, zOffset);
    } else {
      assert results[..k] == results;
    }
  }

  /** `_pull_freq` on values: the messages it scans for a window (up to
      the first one starting after the window's end) and the messages it
      keeps (those after the last one that ended before the window). */
  function PullWindow(msgs: seq<Message>, startTime: real, endTime: real): (r: (seq<Message>, seq<Message>))
    requires AllNonEmpty(msgs)
    ensures AllNonEmpty(r.0) && |r.0| <= |msgs| && r.0 == msgs[..|r.0|]
    ensures AllNonEmpty(r.1) && |r.1| <= |msgs| && r.1 == msgs[|msgs| - |r.1|..]
  {
    var k := ScanLength(msgs, endTime);
    var d := Discard(msgs[..k], startTime);
    assert forall i :: 0 <= i < |msgs| - d ==> msgs[d..][i] == msgs[d + i];
    (msgs[..k], msgs[d..])
  }

  /** The frequency `_pull_freq` returns for the messages it scanned: the
      average over the samples timed inside the window, 0 when none is. */
  function WindowFreq(window: seq<Message>, startTime: real, endTime: real): real
    requires AllNonEmpty(window)
  {
    Mean(MsgsSum(window, startTime, endTime), MsgsCount(window, startTime, endTime))
  }

  /** A window `_check_samples` closed: the messages scanned for it and the
      probe time it belonged to. */
  datatype Closed = Closed(window: seq<Message>, pt: ProbeTime)

  predicate WindowsNonEmpty(closed: seq<Closed>)
  {
    forall i :: 0 <= i < |closed| ==> AllNonEmpty(closed[i].window)
  }

  /** The result recorded for a closed window: its averaged frequency and
      its toolhead position. */
  function Record(c: Closed, lookup: real -> seq<real>): ProbeResult
    requires AllNonEmpty(c.window)
  {
    ProbeResult(WindowFreq(c.window, c.pt.startTime, c.pt.endTime), PositionOf(c.pt, lookup))
  }

  /** The results recorded for closed windows, in order. */
  function Recorded(closed: seq<Closed>, lookup: real -> seq<real>): seq<ProbeResult>
    requires WindowsNonEmpty(closed)
  {
    if closed == [] then [] else Recorded(closed[..|closed| - 1], lookup) + [Record(closed[|closed| - 1], lookup)]
  }

  /** One result per closed window, each that window's average frequency
      and toolhead position. */
  lemma {:induction false} RecordedMeaning(closed: seq<Closed>, lookup: real -> seq<real>)
    requires WindowsNonEmpty(closed)
    ensures var r := Recorded(closed, lookup);
            |r| == |closed| &&
            forall k :: 0 <= k < |closed| ==>
              r[k] == ProbeResult(WindowFreq(closed[k].window, closed[k].pt.startTime, closed[k].pt.endTime),
                                  PositionOf(closed[k].pt, lookup))
  {
    if closed != [] {
      var pre := closed[..|closed| - 1];
      RecordedMeaning(pre, lookup);
      assert forall k :: 0 <= k < |pre| ==> pre[k] == closed[k];
    }
  }

  /** Recording the windows of two runs one after the other. */
  lemma {:induction false} RecordedAppend(a: seq<Closed>, b: seq<Closed>, lookup: real -> seq<real>)
    requires WindowsNonEmpty(a) && WindowsNonEmpty(b)
    ensures WindowsNonEmpty(a + b)
    ensures Recorded(a + b, lookup) == Recorded(a, lookup) + Recorded(b, lookup)
    decreases |b|
  {
    if b != [] {
      var pre := b[..|b| - 1];
      assert (a + b)[..|a + b| - 1] == a + pre;
      RecordedAppend(a, pre, lookup);
    } else {
      assert a + b == a;
    }
  }

  /** What is left once `_check_samples` has run, and the windows it closed. */
  datatype Gathered = Gathered(samples: seq<Message>, probeTimes: seq<ProbeTime>, closed: seq<Closed>)

  /** `_check_samples` on values: while messages and windows remain and the
      newest sample has reached the first window's end, that window is
      closed over the messages `_pull_freq` scans for it, keeping the
      messages `_pull_freq` keeps. It stops with no messages, no windows,
      or the first open window's end still ahead of the newest sample. */
  function CheckSpec(samples: seq<Message>, probeTimes: seq<ProbeTime>): (g: Gathered)
    requires AllNonEmpty(samples)
    ensures AllNonEmpty(g.samples) && WindowsNonEmpty(g.closed)
    decreases |probeTimes|
  {
    if !Ready(samples, probeTimes) then Gathered(samples, probeTimes, [])
    else
      var pt := probeTimes[0];
      var w := PullWindow(samples, pt.startTime, pt.endTime);
      var g := CheckSpec(w.1, probeTimes[1..]);
      Gathered(g.samples, g.probeTimes, [Closed(w.0, pt)] + g.closed)
  }

  /** The test `_check_samples` makes before closing a window: messages and
      windows remain and the newest sample has reached the first window's end. */
  predicate Ready(samples: seq<Message>, probeTimes: seq<ProbeTime>)
    requires AllNonEmpty(samples)
  {
    samples != [] && probeTimes != [] && LastTime(samples[|samples| - 1]) >= probeTimes[0].endTime
  }

  /** What `_check_samples` promises: the waiting windows lose a prefix and
      exactly those are closed, in order; the first is closed over the
      messages `_pull_freq` scans for it from the current ones; and it
      stops only with no messages, no windows, or the first open window's
      end still ahead of the newest sample. */
  lemma {:induction false} CheckSpecMeaning(samples: seq<Message>, probeTimes: seq<ProbeTime>)
    requires AllNonEmpty(samples)
    ensures var g := CheckSpec(samples, probeTimes);
            && |g.probeTimes| <= |probeTimes| && g.probeTimes == probeTimes[|probeTimes| - |g.probeTimes|..]
            && |g.closed| == |probeTimes| - |g.probeTimes|
            && (forall k :: 0 <= k < |g.closed| ==> g.closed[k].pt == probeTimes[k])
            && (g.samples == [] || g.probeTimes == [] || LastTime(g.samples[|g.samples| - 1]) < g.probeTimes[0].endTime)
            && (g.closed != [] ==> g.closed[0].window == PullWindow(samples, probeTimes[0].startTime, probeTimes[0].endTime).0)
  {
    CheckSpecWindows(samples, probeTimes);
    CheckSpecStops(samples, probeTimes);
    if Ready(samples, probeTimes) {
      CheckSpecStep(samples, probeTimes);
    } else {
      CheckSpecIdle(samples, probeTimes);
    }
  }

  /** The windows closed are a prefix of those waiting, in order, and the
      rest are left waiting. */
  predicate ClosesPrefix(probeTimes: seq<ProbeTime>, g: Gathered)
  {
    && |g.probeTimes| <= |probeTimes| && g.probeTimes == probeTimes[|probeTimes| - |g.probeTimes|..]
    && |g.closed| == |probeTimes| - |g.probeTimes|
    && (forall k :: 0 <= k < |g.closed| ==> g.closed[k].pt == probeTimes[k])
  }

  lemma {:induction false} CheckSpecWindows(samples: seq<Message>, probeTimes: seq<ProbeTime>)
    requires AllNonEmpty(samples)
    ensures ClosesPrefix(probeTimes, CheckSpec(samples, probeTimes))
    decreases |probeTimes|
  {
    if Ready(samples, probeTimes) {
      var w := PullWindow(samples, probeTimes[0].startTime, probeTimes[0].endTime);
      CheckSpecStep(samples, probeTimes);
      CheckSpecWindows(w.1, probeTimes[1..]);
      ClosesPrefixCons(probeTimes, CheckSpec(samples, probeTimes), CheckSpec(w.1, probeTimes[1..]), Closed(w.0, probeTimes[0]));
    } else {
      CheckSpecIdle(samples, probeTimes);
      assert probeTimes[|probeTimes| - |probeTimes|..] == probeTimes;
    }
  }

  /** Closing the first window and then a prefix of the others closes a
      prefix of all of them. */
  lemma {:induction false} ClosesPrefixCons(probeTimes: seq<ProbeTime>, g: Gathered, next: Gathered, c: Closed)
    requires probeTimes != [] && c.pt == probeTimes[0] && ClosesPrefix(probeTimes[1..], next)
    requires g == Gathered(next.samples, next.probeTimes, [c] + next.closed)
    ensures ClosesPrefix(probeTimes, g)
  {
    var rest := probeTimes[1..];
    assert probeTimes[|probeTimes| - |next.probeTimes|..] == rest[|rest| - |next.probeTimes|..];
    forall k | 0 <= k < |g.closed|
      ensures g.closed[k].pt == probeTimes[k]
    {
      if k > 0 {
        assert g.closed[k] == next.closed[k - 1] && rest[k - 1] == probeTimes[k];
      }
    }
  }

  /** `_check_samples` stops only with no messages, no windows, or the
      first open window's end still ahead of the newest sample. */
  lemma {:induction false} CheckSpecStops(samples: seq<Message>, probeTimes: seq<ProbeTime>)
    requires AllNonEmpty(samples)
    ensures var g := CheckSpec(samples, probeTimes);
            !Ready(g.samples, g.probeTimes)
    decreases |probeTimes|
  {
    if Ready(samples, probeTimes) {
      var w := PullWindow(samples, probeTimes[0].startTime, probeTimes[0].endTime);
      CheckSpecStep(samples, probeTimes);
      CheckSpecStops(w.1, probeTimes[1..]);
    } else {
      CheckSpecIdle(samples, probeTimes);
    }
  }

  /** One closed window: `CheckSpec` unfolded once. */
  lemma {:induction false} CheckSpecStep(samples: seq<Message>, probeTimes: seq<ProbeTime>)
    requires AllNonEmpty(samples) && Ready(samples, probeTimes)
    ensures var w := PullWindow(samples, probeTimes[0].startTime, probeTimes[0].endTime);
            var g := CheckSpec(w.1, probeTimes[1..]);
            CheckSpec(samples, probeTimes) == Gathered(g.samples, g.probeTimes, [Closed(w.0, probeTimes[0])] + g.closed)
  {
  }

  /** The invariant of `_check_samples`' loop, carried over one closed
      window: `rest` is what is left after `done` was closed, and `rest`
      itself closes `c` first and then what `next` closes. */
  lemma {:induction false} GatheredCarried(whole: Gathered, done: seq<Closed>, rest: Gathered, c: Closed, next: Gathered)
    requires whole == Gathered(rest.samples, rest.probeTimes, done + rest.closed)
    requires rest == Gathered(next.samples, next.probeTimes, [c] + next.closed)
    ensures whole == Gathered(next.samples, next.probeTimes, (done + [c]) + next.closed)
  {
    assert done + ([c] + next.closed) == (done + [c]) + next.closed;
  }

  /** With no message, no window, or the first window still open,
      `_check_samples` leaves everything as it is. */
  lemma {:induction false} CheckSpecIdle(samples: seq<Message>, probeTimes: seq<ProbeTime>)
    requires AllNonEmpty(samples)
    requires !Ready(samples, probeTimes)
    ensures CheckSpec(samples, probeTimes) == Gathered(samples, probeTimes, [])
  {
  }

  /** `_check_samples` is idempotent: running it again on what it left
      closes nothing more. */
  lemma {:induction false} CheckSpecIdempotent(samples: seq<Message>, probeTimes: seq<ProbeTime>)
    requires AllNonEmpty(samples)
    ensures var g := CheckSpec(samples, probeTimes);
            CheckSpec(g.samples, g.probeTimes) == Gathered(g.samples, g.probeTimes, [])
  {
    CheckSpecMeaning(samples, probeTimes);
  }

  /** The sample gatherer of one probing session (`EddyGatherSamples`):
      sensor messages not yet consumed, the probe windows still waiting
      for data and the frequencies found for the windows already closed. */
  class EddyGatherSamples {
    const calibration: EddyCalibration
    const zOffset: real
    var samples: seq<Message>
    var probeTimes: seq<ProbeTime>
    var probeResults: seq<ProbeResult>
    var needStop: bool

    predicate Valid()
      reads this
    {
      && AllNonEmpty(samples)
      && (forall i :: 0 <= i < |probeTimes| && probeTimes[i].source.Given? ==> HasZ(probeTimes[i].source.pos))
      && ResultsHaveZ(probeResults)
    }

    constructor (calibration: EddyCalibration, zOffset: real)
      requires calibration.IsCalibrated()
      ensures Valid() && this.calibration == calibration && this.zOffset == zOffset
      ensures samples == [] && probeTimes == [] && probeResults == [] && !needStop
    {
      this.calibration := calibration;
      this.zOffset := zOffset;
      samples := [];
      probeTimes := [];
      probeResults := [];
      needStop := false;
    }

    /** `_pull_freq`: average the frequencies timed inside [startTime,
        endTime] over the messages up to the first one starting after the
        window, skipping those that ended before it, and delete the
        messages up to the last skipped one. 0 when nothing was in the
        window. */
    method PullFreq(startTime: real, endTime: real) returns (freq: real)
      requires Valid()
      modifies this`samples
      ensures Valid()
      ensures var k := ScanLength(old(samples), endTime);
              samples == old(samples)[Discard(old(samples)[..k], startTime)..] &&
              freq == Mean(MsgsSum(old(samples)[..k], startTime, endTime), MsgsCount(old(samples)[..k], startTime, endTime))
    {
      var msgNum, discardMsgs := 0, 0;
      var sampSum, sampCount := 0.0, 0;
      ghost var scanned := |samples|;
      while msgNum < |samples|
        invariant 0 <= discardMsgs <= msgNum <= |samples| && scanned == |samples|
        invariant forall i :: 0 <= i < msgNum ==> FirstTime(samples[i]) <= endTime
        invariant AllNonEmpty(samples[..msgNum])
        invariant discardMsgs == Discard(samples[..msgNum], startTime)
        invariant sampSum == MsgsSum(samples[..msgNum], startTime, endTime)
        invariant sampCount == MsgsCount(samples[..msgNum], startTime, endTime)
      {
        var data := samples[msgNum];
        msgNum := msgNum + 1;
        if FirstTime(data) > endTime {
          scanned := msgNum - 1;
          break;
        }
        assert samples[..msgNum][..msgNum - 1] == samples[..msgNum - 1];
        assert AllNonEmpty(samples[..msgNum]);
        if LastTime(data) < startTime {
          discardMsgs := msgNum;
          continue;
        }
        ghost var baseSum, baseCount := sampSum, sampCount;
        for j := 0 to |data|
          invariant sampSum == baseSum + WindowSum(data[..j], startTime, endTime)
          invariant sampCount == baseCount + WindowCount(data[..j], startTime, endTime)
        {
          assert data[..j + 1][..j] == data[..j];
          if data[j].time >= startTime && data[j].time <= endTime {
            sampSum := sampSum + data[j].freq;
            sampCount := sampCount + 1;
          }
        }
        assert data[..|data|] == data;
      }
      ScanLengthIs(samples, endTime, scanned);
      samples := samples[discardMsgs..];
      if sampCount == 0 {
        return 0.0;
      }
      freq := sampSum / sampCount as real;
    }

    /** `_check_samples`: while data and windows remain, close the first
        window once the newest sample reaches its end, recording the
        averaged frequency with the toolhead position. */
    method CheckSamples(lookup: real -> seq<real>)
      requires Valid() && forall t :: HasZ(lookup(t))
      modifies this`samples, this`probeTimes, this`probeResults
      ensures Valid()
      ensures var g := CheckSpec(old(samples), old(probeTimes));
              samples == g.samples && probeTimes == g.probeTimes && probeResults == old(probeResults) + Recorded(g.closed, lookup)
      ensures |probeTimes| <= |old(probeTimes)| && probeTimes == old(probeTimes)[|old(probeTimes)| - |probeTimes|..]
      ensures |probeResults| == |old(probeResults)| + (|old(probeTimes)| - |probeTimes|)
      ensures probeResults[..|old(probeResults)|] == old(probeResults)
      ensures samples == [] || probeTimes == [] || LastTime(samples[|samples| - 1]) < probeTimes[0].endTime
    {
      CloseWindows(lookup);
      CheckSpecMeaning(old(samples), old(probeTimes));
      RecordedMeaning(CheckSpec(old(samples), old(probeTimes)).closed, lookup);
    }

    /** The loop of `_check_samples`. */
    method CloseWindows(lookup: real -> seq<real>)
      requires Valid() && forall t :: HasZ(lookup(t))
      modifies this`samples, this`probeTimes, this`probeResults
      ensures Valid()
      ensures var g := CheckSpec(old(samples), old(probeTimes));
              samples == g.samples && probeTimes == g.probeTimes && probeResults == old(probeResults) + Recorded(g.closed, lookup)
    {
      ghost var whole := CheckSpec(samples, probeTimes);
      ghost var done: seq<Closed> := [];
      assert probeResults == old(probeResults) + [];
      while samples != [] && probeTimes != []
        invariant Valid() && WindowsNonEmpty(done)
        invariant probeResults == old(probeResults) + Recorded(done, lookup)
        invariant var g := CheckSpec(samples, probeTimes);
                  whole == Gathered(g.samples, g.probeTimes, done + g.closed)
        decreases |probeTimes|
      {
        if LastTime(samples[|samples| - 1]) < probeTimes[0].endTime {
          break;
        }
        done := CloseFirst(lookup, whole, old(probeResults), done);
      }
      CheckSpecIdle(samples, probeTimes);
      assert done + [] == done;
    }

    /** One round of that loop: the oldest window is closed and its result
        appended, carrying the loop's invariant from `done` to the closed
        windows it returns. */
    method CloseFirst(lookup: real -> seq<real>, ghost whole: Gathered, ghost results0: seq<ProbeResult>,
                      ghost done: seq<Closed>) returns (ghost done': seq<Closed>)
      requires Valid() && forall t :: HasZ(lookup(t))
      requires Ready(samples, probeTimes) && WindowsNonEmpty(done) && probeResults == results0 + Recorded(done, lookup)
      requires var g := CheckSpec(samples, probeTimes);
               whole == Gathered(g.samples, g.probeTimes, done + g.closed)
      modifies this`samples, this`probeTimes, this`probeResults
      ensures Valid() && WindowsNonEmpty(done') && probeResults == results0 + Recorded(done', lookup)
      ensures var g := CheckSpec(samples, probeTimes);
              whole == Gathered(g.samples, g.probeTimes, done' + g.closed)
      ensures probeTimes == old(probeTimes)[1..]
    {
      ghost var before, waiting := samples, probeTimes;
      ghost var c := TakeWindow(lookup);
      CheckSpecStep(before, waiting);
      GatheredCarried(whole, done, CheckSpec(before, waiting), c, CheckSpec(samples, probeTimes));
      RecordedAppend(done, [c], lookup);
      done' := done + [c];
    }

    /** `_pull_freq` for the oldest window and its result appended. */
    method TakeWindow(lookup: real -> seq<real>) returns (ghost c: Closed)
      requires Valid() && forall t :: HasZ(lookup(t))
      requires samples != [] && probeTimes != []
      modifies this`samples, this`probeTimes, this`probeResults
      ensures Valid() && AllNonEmpty(c.window)
      ensures var pt := old(probeTimes)[0];
              var w := PullWindow(old(samples), pt.startTime, pt.endTime);
              c == Closed(w.0, pt) && samples == w.1 && probeTimes == old(probeTimes)[1..] &&
              probeResults == old(probeResults) + Recorded([c], lookup)
    {
      var pt := probeTimes[0];
      var freq := PullFreq(pt.startTime, pt.endTime);
      c := Closed(PullWindow(old(samples), pt.startTime, pt.endTime).0, pt);
      probeResults := probeResults + [ProbeResult(freq, PositionOf(pt, lookup))];
      probeTimes := probeTimes[1..];
      assert Recorded([c], lookup) == [Record(c, lookup)];
    }

    /** `_add_measurement`: after `finish` drop everything and ask to be
        unsubscribed; otherwise queue the message and close what windows
        it completes. */
    method AddMeasurement(msg: Message, lookup: real -> seq<real>) returns (more: bool)
      requires Valid() && |msg| > 0 && forall t :: HasZ(lookup(t))
      modifies this`samples, this`probeTimes, this`probeResults
      ensures Valid() && more == !needStop
      ensures needStop ==> samples == [] && probeTimes == old(probeTimes) && probeResults == old(probeResults)
      ensures !needStop ==> |probeResults| - |old(probeResults)| == |old(probeTimes)| - |probeTimes|
      ensures !needStop ==> var g := CheckSpec(old(samples) + [msg], old(probeTimes));
              samples == g.samples && probeTimes == g.probeTimes && probeResults == old(probeResults) + Recorded(g.closed, lookup)
      ensures !needStop ==> samples == [] || probeTimes == [] || LastTime(samples[|samples| - 1]) < probeTimes[0].endTime
    {
      if needStop {
        samples := [];
        return false;
      }
      samples := samples + [msg];
      assert AllNonEmpty(old(samples) + [msg]);
      CheckSamples(lookup);
      return true;
    }

    /** `finish`: stop accepting messages. */
    method Finish()
      modifies this`needStop
      ensures needStop
    {
      needStop := true;
    }

    /** `note_probe`: a window whose toolhead position is already known. */
    method NoteProbe(startTime: real, endTime: real, pos: seq<real>, lookup: real -> seq<real>)
      requires Valid() && HasZ(pos) && forall t :: HasZ(lookup(t))
      modifies this`samples, this`probeTimes, this`probeResults
      ensures Valid()
      ensures var queued := old(probeTimes) + [ProbeTime(startTime, endTime, Given(pos))];
              |probeTimes| <= |queued| && probeTimes == queued[|queued| - |probeTimes|..]
              && |probeResults| == |old(probeResults)| + (|queued| - |probeTimes|)
      ensures var g := CheckSpec(old(samples), old(probeTimes) + [ProbeTime(startTime, endTime, Given(pos))]);
              samples == g.samples && probeTimes == g.probeTimes && probeResults == old(probeResults) + Recorded(g.closed, lookup)
    {
      probeTimes := probeTimes + [ProbeTime(startTime, endTime, Given(pos))];
      CheckSamples(lookup);
    }

    /** `note_probe_and_position`: a window whose toolhead position is
        looked up at `posTime` when the window closes. */
    method NoteProbeAndPosition(startTime: real, endTime: real, posTime: real, lookup: real -> seq<real>)
      requires Valid() && forall t :: HasZ(lookup(t))
      modifies this`samples, this`probeTimes, this`probeResults
      ensures Valid()
      ensures var queued := old(probeTimes) + [ProbeTime(startTime, endTime, AtTime(posTime))];
              |probeTimes| <= |queued| && probeTimes == queued[|queued| - |probeTimes|..]
              && |probeResults| == |old(probeResults)| + (|queued| - |probeTimes|)
      ensures var g := CheckSpec(old(samples), old(probeTimes) + [ProbeTime(startTime, endTime, AtTime(posTime))]);
              samples == g.samples && probeTimes == g.probeTimes && probeResults == old(probeResults) + Recorded(g.closed, lookup)
    {
      probeTimes := probeTimes + [ProbeTime(startTime, endTime, AtTime(posTime))];
      CheckSamples(lookup);
    }

    /** `pull_probed` after the wait: convert every result, failing on the
        first without a reading or out of range; the results are cleared
        only on success. */
    method PullProbed() returns (r: Result<seq<seq<real>>, ProbeError>)
      requires Valid() && calibration.Valid()
      modifies this`probeResults
      ensures r == Probed(old(probeResults), calibration.calFreqs, calibration.calZpos, zOffset)
      ensures r.Ok? ==> probeResults == []
      ensures r.Err? ==> probeResults == old(probeResults)
    {
      var freqs, zpos := calibration.calFreqs, calibration.calZpos;
      var results: seq<seq<real>> := [];
      for i := 0 to |probeResults|
        invariant ResultsHaveZ(probeResults[..i])
        invariant Probed(probeResults[..i], freqs, zpos, zOffset) == Ok(results)
      {
        var res := probeResults[i];
        assert probeResults[..i + 1][..i] == probeResults[..i];
        assert ResultsHaveZ(probeResults[..i + 1]);
        if res.freq == 0.0 {
          ProbedErrExtends(probeResults, i + 1, freqs, zpos, zOffset);
          return Err(NoReadings);
        }
        var sensorZ := FreqToHeight(freqs, zpos, res.freq);
        if sensorZ <= -OUT_OF_RANGE || sensorZ >= OUT_OF_RANGE {
          ProbedErrExtends(probeResults, i + 1, freqs, zpos, zOffset);
          return Err(NotInRange);
        }
        results := results + [Adjusted(res.pos, sensorZ, zOffset)];
      }
      assert probeResults[..|probeResults|] == probeResults;
      r := Ok(results);
      probeResults := [];
    }
  }

  /** Creating an `EddyGatherSamples` fails (`null`) on an uncalibrated probe. */
  method StartGather(calibration: EddyCalibration, zOffset: real) returns (g: EddyGatherSamples?)
    ensures g == null <==> !calibration.IsCalibrated()
    ensures g != null ==> fresh(g) && g.Valid() && g.calibration == calibration
                          && g.samples == [] && g.probeTimes == [] && g.probeResults == []
  {
    if !calibration.IsCalibrated() {
      return null;
    }
    g := new EddyGatherSamples(calibration, zOffset);
  }
}
