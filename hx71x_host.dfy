/** The host side of the HX711/HX717 driver: dropping error samples from a
    batch in place, the counter that forces a sensor restart after
    repeated empty batches with overflows, the pin placement check and the
    gain/channel tables. */
module Hx71xHost {
  import opened Ints
  import opened Wrappers
  import Hx71xMcu

  /** A sample as delivered by the bulk reader: a print time and the
      little-endian int32 read from the report. */
  datatype Sample = Sample(time: real, value: int)

  /** `val & 0xffffffff == 0x80000000`: the MCU's error marker. */
  predicate IsErrorValue(value: int)
  {
    U32(value) == Hx71xMcu.SAMPLE_ERROR
  }

  /** The samples that are not error markers, in their original order. */
  function Survivors(s: seq<Sample>): seq<Sample>
  {
    if s == [] then []
    else Survivors(s[..|s| - 1]) + (if IsErrorValue(s[|s| - 1].value) then [] else [s[|s| - 1]])
  }

  /** The number of error markers in `s`. */
  function ErrorCount(s: seq<Sample>): nat
  {
    if s == [] then 0
    else ErrorCount(s[..|s| - 1]) + (if IsErrorValue(s[|s| - 1].value) then 1 else 0)
  }

  /** Filtering distributes over concatenation, so the survivors keep
      their relative order. */
  lemma {:induction false} SurvivorsAppend(a: seq<Sample>, b: seq<Sample>)
    ensures Survivors(a + b) == Survivors(a) + Survivors(b)
  {
    if b != [] {
      var n := |b| - 1;
      assert (a + b)[..|a + b| - 1] == a + b[..n];
      SurvivorsAppend(a, b[..n]);
    } else {
      assert a + b == a;
    }
  }

  /** Every sample is either kept or counted as an error; a kept value is
      never the marker, and each non-marker sample is kept as often as it
      occurs. */
  lemma {:induction false} SurvivorsMeaning(s: seq<Sample>)
    ensures |Survivors(s)| + ErrorCount(s) == |s|
    ensures forall i :: 0 <= i < |Survivors(s)| ==> !IsErrorValue(Survivors(s)[i].value)
    ensures forall x :: multiset(Survivors(s))[x] == if IsErrorValue(x.value) then 0 else multiset(s)[x]
  {
    if s != [] {
      var n := |s| - 1;
      SurvivorsMeaning(s[..n]);
      assert s == s[..n] + [s[n]];
    }
  }

  /** For an int32 value the marker test singles out -2^31 alone. */
  lemma {:induction false} ErrorValueIsMinInt32(value: int)
    requires IsI32(value)
    ensures IsErrorValue(value) <==> value == -TWO_31
  {
    if value < 0 {
      ModUnique(value, TWO_32, -1, value + TWO_32);
    }
  }

  /** The host's int32 reading of a decoded transfer is dropped exactly
      when some pulse after the 24 data bits read zero. */
  lemma {:induction false} ErrorMarkerEndToEnd(bits: seq<int>, gainChannel: int)
    requires 1 <= gainChannel <= 4 && Hx71xMcu.IsBits(bits) && |bits| == 24 + gainChannel
    ensures 0 <= Hx71xMcu.BitsValue(bits) < Pow2(24 + gainChannel)
    ensures IsErrorValue(I32(Hx71xMcu.Decode(Hx71xMcu.BitsValue(bits), gainChannel))) <==>
              exists i :: 24 <= i < |bits| && bits[i] == 0
  {
    Hx71xMcu.DecodeMeaning(bits, gainChannel);
    var c := Hx71xMcu.Decode(Hx71xMcu.BitsValue(bits), gainChannel);
    U32OfI32(c);
  }

  lemma {:induction false} U32OfI32(c: int)
    requires IsU32(c)
    ensures U32(I32(c)) == c
  {
    if c >= TWO_31 {
      assert I32(c) == c - TWO_32 by {
        ModUnique(c - I32(c), TWO_32, (c - I32(c)) / TWO_32, 0);
      }
      ModUnique(c - TWO_32, TWO_32, -1, c);
    }
  }

  /** One more sample extends the survivors and the error count by that
      sample alone. */
  lemma {:induction false} FilterSnoc(s: seq<Sample>, i: nat)
    requires i < |s|
    ensures Survivors(s[..i + 1]) == Survivors(s[..i]) + (if IsErrorValue(s[i].value) then [] else [s[i]])
    ensures ErrorCount(s[..i + 1]) == ErrorCount(s[..i]) + (if IsErrorValue(s[i].value) then 1 else 0)
  {
    assert s[..i + 1][..i] == s[..i];
  }

  /** Writing slot `c <= i` of a list whose tail from `i` is `orig`'s
      extends the compacted prefix and keeps the tail from `i + 1`. */
  lemma {:induction false} StoreBehind(a: seq<Sample>, orig: seq<Sample>, c: nat, i: nat, x: Sample)
    requires c <= i < |a| == |orig| && a[i..] == orig[i..]
    ensures a[c := x][..c + 1] == a[..c] + [x]
    ensures a[c := x][i + 1..] == orig[i + 1..]
  {
    assert a[i + 1..] == a[i..][1..];
    assert orig[i + 1..] == orig[i..][1..];
  }

  /** Outcome of `_process_batch`: `{}` or the data with the counters. */
  datatype BatchResult = NoData | Data(data: seq<Sample>, errors: int, overflows: int)

  /** The counters kept by one `HX71xBase` across batches. */
  class Hx71xBase {
    const gainChannel: int
    var lastErrorCount: int
    var consecutiveFails: int

    predicate Valid()
      reads this
    {
      lastErrorCount >= 0 && 0 <= consecutiveFails <= 4
    }

    constructor (gainChannel: int)
      ensures Valid() && this.gainChannel == gainChannel
      ensures lastErrorCount == 0 && consecutiveFails == 0
    {
      this.gainChannel := gainChannel;
      lastErrorCount := 0;
      consecutiveFails := 0;
    }

    /** `_convert_samples`: compact the batch in place with a write index;
        the list afterwards is the first `count` slots. */
    method ConvertSamples(samples: array<Sample>) returns (count: int)
      modifies samples, this`lastErrorCount
      ensures 0 <= count <= samples.Length
      ensures samples[..count] == Survivors(old(samples[..]))
      ensures lastErrorCount == old(lastErrorCount) + ErrorCount(old(samples[..]))
    {
      ghost var orig := samples[..];
      count := 0;
      for i := 0 to samples.Length
        invariant 0 <= count <= i
        invariant samples[..count] == Survivors(orig[..i])
        invariant samples[i..] == orig[i..]
        invariant lastErrorCount == old(lastErrorCount) + ErrorCount(orig[..i])
      {
        FilterSnoc(orig, i);
        var s := samples[i];
        assert s == samples[i..][0] == orig[i..][0] == orig[i];
        if IsErrorValue(s.value) {
          lastErrorCount := lastErrorCount + 1;
          assert samples[i + 1..] == samples[i..][1..];
          assert orig[i + 1..] == orig[i..][1..];
        } else {
          ghost var before := samples[..];
          samples[count] := s;
          assert samples[..] == before[count := s];
          StoreBehind(before, orig, count, i, s);
          count := count + 1;
        }
      }
      assert orig[..samples.Length] == orig;
    }

    /** `_process_batch`: an empty batch counts a failure when the overflow
        count moved and forces a stop and restart after more than four in a
        row; any data clears the count and is returned with the error and
        overflow counters. The reader's previous and current overflow
        counts are parameters. */
    method ProcessBatch(samples: array<Sample>, prevOverflows: int, overflows: int)
      returns (result: BatchResult, restart: bool)
      requires Valid()
      modifies samples, this`lastErrorCount, this`consecutiveFails
      ensures Valid()
      ensures lastErrorCount == old(lastErrorCount) + ErrorCount(old(samples[..]))
      ensures Survivors(old(samples[..])) == [] ==>
                var fails := old(consecutiveFails) + (if overflows != prevOverflows then 1 else 0);
                result == NoData && (restart <==> fails > 4) && consecutiveFails == (if restart then 0 else fails)
      ensures Survivors(old(samples[..])) != [] ==>
                result == Data(Survivors(old(samples[..])), lastErrorCount, overflows)
                && consecutiveFails == 0 && !restart
    {
      var count := ConvertSamples(samples);
      SurvivorsMeaning(old(samples[..]));
      restart := false;
      if count == 0 {
        if overflows != prevOverflows {
          consecutiveFails := consecutiveFails + 1;
        }
        if consecutiveFails > 4 {
          consecutiveFails := 0;
          restart := true;
        }
        return NoData, restart;
      }
      consecutiveFails := 0;
      result := Data(samples[..count], lastErrorCount, overflows);
    }
  }

  /** A looked-up pin: the MCU it belongs to and its name there. */
  datatype PinDesc = PinDesc(chip: int, pin: string)

  /** The pin check of `HX71xBase.__init__`: both pins must be on one MCU;
      the result is that MCU and the two pin names. */
  function CheckPins(dout: PinDesc, sclk: PinDesc): (r: Result<(int, string, string), string>)
    ensures r.Ok? <==> dout.chip == sclk.chip
    ensures r.Ok? ==> r.value.0 == dout.chip == sclk.chip && r.value.1 == dout.pin && r.value.2 == sclk.pin
  {
    if sclk.chip != dout.chip then Err("HX71x config error: All HX71x pins must be connected to the same MCU")
    else Ok((dout.chip, dout.pin, sclk.pin))
  }

  const HX711_GAINS: map<string, int> := map["A-128" := 1, "B-32" := 2, "A-64" := 3]
  const HX717_GAINS: map<string, int> := map["A-128" := 1, "B-64" := 2, "A-64" := 3, "B-8" := 4]
  const DEFAULT_GAIN: string := "A-128"

  /** Every gain/channel choice of either chip, the default included,
      passes the MCU's configuration check. */
  lemma {:induction false} GainChoicesAccepted()
    ensures DEFAULT_GAIN in HX711_GAINS && DEFAULT_GAIN in HX717_GAINS
    ensures forall g :: g in HX711_GAINS ==> Hx71xMcu.GainAccepted(HX711_GAINS[g])
    ensures forall g :: g in HX717_GAINS ==> Hx71xMcu.GainAccepted(HX717_GAINS[g])
  {
  }
}
