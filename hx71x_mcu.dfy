/** The MCU side of the HX711/HX717 load-cell ADC: the bit-banged read of
    24 data bits plus the gain/channel pulses, decoding into a
    sign-extended sample or an error marker, little-endian packing into
    the bulk-report buffer, the polling timer and the start/stop command.
    The pin levels read during a transfer are an input sequence. */
module Hx71xMcu {
  import opened Ints

  const BYTES_PER_SAMPLE: int := 4
  /** `SAMPLE_ERROR`: the marker for a transfer whose trailing bits were wrong. */
  const SAMPLE_ERROR: int := 0x8000_0000

  predicate IsBits(bits: seq<int>)
  {
    forall i :: 0 <= i < |bits| ==> bits[i] == 0 || bits[i] == 1
  }

  /** The number whose binary digits, most significant first, are `bits`. */
  function BitsValue(bits: seq<int>): int
  {
    if bits == [] then 0 else 2 * BitsValue(bits[..|bits| - 1]) + bits[|bits| - 1]
  }

  lemma {:induction false} BitsValueBound(bits: seq<int>)
    requires IsBits(bits)
    ensures 0 <= BitsValue(bits) < Pow2(|bits|)
  {
    if bits != [] {
      BitsValueBound(bits[..|bits| - 1]);
    }
  }

  /** Reading `a` and then `b` shifts `a` left by `|b|` bits. */
  lemma {:induction false} BitsValueAppend(a: seq<int>, b: seq<int>)
    ensures BitsValue(a + b) == BitsValue(a) * Pow2(|b|) + BitsValue(b)
  {
    if b != [] {
      var n := |b| - 1;
      assert (a + b)[..|a + b| - 1] == a + b[..n];
      BitsValueAppend(a, b[..n]);
      calc {
        BitsValue(a + b);
        2 * BitsValue(a + b[..n]) + b[n];
        2 * (BitsValue(a) * Pow2(n) + BitsValue(b[..n])) + b[n];
        { assert Pow2(n + 1) == 2 * Pow2(n); }
        BitsValue(a) * Pow2(n + 1) + BitsValue(b);
      }
    } else {
      assert a + b == a;
    }
  }

  /** A run of bits reads as 2^n - 1 exactly when every bit is one. */
  lemma {:induction false} AllOnes(bits: seq<int>)
    requires IsBits(bits)
    ensures BitsValue(bits) == Pow2(|bits|) - 1 <==> forall i :: 0 <= i < |bits| ==> bits[i] == 1
  {
    if bits != [] {
      var n := |bits| - 1;
      AllOnes(bits[..n]);
      BitsValueBound(bits[..n]);
      if BitsValue(bits) == Pow2(|bits|) - 1 {
        assert bits[n] == 1;
        assert BitsValue(bits[..n]) == Pow2(n) - 1;
      }
    }
  }

  /** `hx71x_raw_read`: clock in `|bits|` bits, most significant first,
      into a uint32 (`res = (res << 1) | v`). */
  method RawRead(bits: seq<int>) returns (res: int)
    requires IsBits(bits) && |bits| <= 32
    ensures res == BitsValue(bits) && IsU32(res)
  {
    Pow2Values();
    res := 0;
    for i := 0 to |bits|
      invariant res == BitsValue(bits[..i]) && 0 <= res < Pow2(i)
    {
      assert bits[..i + 1][..i] == bits[..i];
      Pow2Mono(i, 31);
      res := U32(res * 2) + bits[i];
    }
    assert bits[..|bits|] == bits;
    Pow2Mono(|bits|, 32);
  }

  lemma {:induction false} Pow2Mono(a: nat, b: nat)
    requires a <= b
    ensures Pow2(a) <= Pow2(b)
  {
    if a < b {
      Pow2Mono(a, b - 1);
    }
  }

  /** The data part of `hx71x_read_adc`: `adc >> gain_channel`, bit 23
      copied into bits 24..31, or `SAMPLE_ERROR` when the low
      `gain_channel` bits of `adc` are not all ones. */
  function Decode(adc: int, gainChannel: int): (counts: int)
    requires 1 <= gainChannel <= 4 && 0 <= adc < Pow2(24 + gainChannel)
    ensures IsU32(counts)
  {
    Pow2Add(24, gainChannel);
    Pow2Values();
    var c := Shr(adc, gainChannel);
    var extended := if c >= 0x80_0000 then c + 0xFF00_0000 else c;
    var extrasMask := Pow2(gainChannel) - 1;
    if LowBits(adc, gainChannel) != extrasMask then SAMPLE_ERROR else extended
  }

  /** Decoding a transfer: the error marker exactly when some pulse after
      the 24 data bits read zero; otherwise a value whose int32 reading is
      the 24 data bits as a two's complement number. */
  lemma {:induction false} DecodeMeaning(bits: seq<int>, gainChannel: int)
    requires 1 <= gainChannel <= 4 && IsBits(bits) && |bits| == 24 + gainChannel
    ensures 0 <= BitsValue(bits) < Pow2(24 + gainChannel)
    ensures Decode(BitsValue(bits), gainChannel) == SAMPLE_ERROR <==>
              exists i :: 24 <= i < |bits| && bits[i] == 0
    ensures Decode(BitsValue(bits), gainChannel) != SAMPLE_ERROR ==>
              var d := BitsValue(bits[..24]);
              I32(Decode(BitsValue(bits), gainChannel)) == if d >= 0x80_0000 then d - 0x100_0000 else d
  {
    BitsValueBound(bits);
    var hi, lo := bits[..24], bits[24..];
    assert bits == hi + lo;
    BitsValueAppend(hi, lo);
    BitsValueBound(hi);
    BitsValueBound(lo);
    AllOnes(lo);
    Pow2Values();
    var adc := BitsValue(bits);
    ModUnique(adc, Pow2(gainChannel), BitsValue(hi), BitsValue(lo));
    assert Shr(adc, gainChannel) == BitsValue(hi);
    assert LowBits(adc, gainChannel) == BitsValue(lo);
    if exists i :: 24 <= i < |bits| && bits[i] == 0 {
      var i :| 24 <= i < |bits| && bits[i] == 0;
      assert lo[i - 24] == 0;
    }
  }

  /** The four bytes stored for a sample, least significant first
      (`data[n + k] = counts >> 8k`, truncated to a byte). */
  function SampleBytes(counts: int): (b: seq<int>)
    requires IsU32(counts)
    ensures |b| == BYTES_PER_SAMPLE && forall k :: 0 <= k < BYTES_PER_SAMPLE ==> 0 <= b[k] < 256
  {
    [counts % 0x100, (counts / 0x100) % 0x100, (counts / 0x1_0000) % 0x100, (counts / 0x100_0000) % 0x100]
  }

  /** Reading the bytes back little-endian gives the sample. */
  lemma {:induction false} SampleBytesRoundTrip(counts: int)
    requires IsU32(counts)
    ensures var b := SampleBytes(counts);
            b[0] + 0x100 * b[1] + 0x1_0000 * b[2] + 0x100_0000 * b[3] == counts
  {
  }

  /** One `hx71x_adc`: its gain/channel, the polling timer, the flag set
      when a conversion is ready, and the bulk buffer with the reports
      sent from it. */
  class Hx71xAdc {
    const gainChannel: int
    var pendingFlag: bool
    var restTicks: int
    var waketime: int
    var timerActive: bool
    var sclkHigh: bool
    const data: array<int>
    var dataCount: int
    var possibleOverflows: int
    var reports: seq<seq<int>>

    predicate Valid()
      reads this, data
    {
      && 1 <= gainChannel <= 4
      && 0 <= dataCount && dataCount + BYTES_PER_SAMPLE <= data.Length
      && IsU32(restTicks) && IsU32(waketime) && possibleOverflows >= 0
    }

    /** The state after `config_hx71x` with a valid gain: the chip powered
        down (clock line high), no timer, an empty buffer of `dataSize`. */
    constructor (gainChannel: int, dataSize: int)
      requires 1 <= gainChannel <= 4 && dataSize >= BYTES_PER_SAMPLE
      ensures Valid() && fresh(data) && data.Length == dataSize
      ensures this.gainChannel == gainChannel && !pendingFlag && sclkHigh && !timerActive
      ensures dataCount == 0 && possibleOverflows == 0 && reports == []
    {
      this.gainChannel := gainChannel;
      pendingFlag := false;
      restTicks := 0;
      waketime := 0;
      timerActive := false;
      sclkHigh := true;
      data := new int[dataSize](_ => 0);
      dataCount := 0;
      possibleOverflows := 0;
      reports := [];
    }

    /** `hx71x_event`: a wake-up while a read is still pending counts a
        possible overflow; when the chip has data ready the read is flagged
        and the next wake-up is 8 periods away, otherwise one period. */
    method Event(dataReady: bool)
      requires Valid()
      modifies this`possibleOverflows, this`pendingFlag, this`waketime
      ensures Valid()
      ensures possibleOverflows == old(possibleOverflows) + (if old(pendingFlag) then 1 else 0)
      ensures dataReady ==> pendingFlag && waketime == U32(old(waketime) + 8 * restTicks)
      ensures !dataReady ==> pendingFlag == old(pendingFlag) && waketime == U32(old(waketime) + restTicks)
    {
      if pendingFlag {
        possibleOverflows := possibleOverflows + 1;
      }
      if dataReady {
        pendingFlag := true;
        var step := restTicks * 8;
        U32Add(step, waketime);
        waketime := U32(U32(step) + waketime);
      } else {
        waketime := U32(waketime + restTicks);
      }
    }

    /** `hx71x_read_adc`: read 24 + gain_channel bits, decode them, append
        the four bytes to the buffer and send the buffer as a report when
        another sample would not fit. */
    method ReadAdc(bits: seq<int>)
      requires Valid() && IsBits(bits) && |bits| == 24 + gainChannel
      modifies this`pendingFlag, this`dataCount, this`reports, data
      ensures Valid() && !pendingFlag
      ensures 0 <= BitsValue(bits) < Pow2(24 + gainChannel)
      ensures data[..old(dataCount) + BYTES_PER_SAMPLE] ==
                old(data[..dataCount]) + SampleBytes(Decode(BitsValue(bits), gainChannel))
      ensures forall i :: old(dataCount) + BYTES_PER_SAMPLE <= i < data.Length ==> data[i] == old(data[i])
      ensures old(dataCount) + 2 * BYTES_PER_SAMPLE > data.Length ==>
                dataCount == 0 && reports == old(reports) + [data[..old(dataCount) + BYTES_PER_SAMPLE]]
      ensures old(dataCount) + 2 * BYTES_PER_SAMPLE <= data.Length ==>
                dataCount == old(dataCount) + BYTES_PER_SAMPLE && reports == old(reports)
    {
      BitsValueBound(bits);
      var adc := RawRead(bits);
      pendingFlag := false;
      var counts := Decode(adc, gainChannel);
      var b := SampleBytes(counts);
      data[dataCount] := b[0];
      data[dataCount + 1] := b[1];
      data[dataCount + 2] := b[2];
      data[dataCount + 3] := b[3];
      assert data[..dataCount + BYTES_PER_SAMPLE] == old(data[..dataCount]) + b;
      dataCount := dataCount + BYTES_PER_SAMPLE;
      if dataCount + BYTES_PER_SAMPLE > data.Length {
        reports := reports + [data[..dataCount]];
        dataCount := 0;
      }
    }

    /** `command_query_hx71x`: stop the timer and clear the pending flag;
        zero ticks powers the chip down and ends measuring, otherwise the
        chip is woken, the buffer reset and the timer started one period
        after `now`. */
    method Query(ticks: int, now: int)
      requires Valid() && IsU32(ticks) && IsU32(now)
      modifies this`pendingFlag, this`restTicks, this`timerActive, this`sclkHigh,
               this`dataCount, this`possibleOverflows, this`waketime
      ensures Valid() && !pendingFlag && restTicks == ticks
      ensures ticks == 0 ==> !timerActive && sclkHigh && dataCount == old(dataCount)
                             && possibleOverflows == old(possibleOverflows) && waketime == old(waketime)
      ensures ticks != 0 ==> timerActive && !sclkHigh && dataCount == 0 && possibleOverflows == 0
                             && waketime == U32(now + ticks)
    {
      timerActive := false;
      pendingFlag := false;
      restTicks := ticks;
      if restTicks == 0 {
        sclkHigh := true;
        return;
      }
      sclkHigh := false;
      dataCount := 0;
      possibleOverflows := 0;
      waketime := U32(now + restTicks);
      timerActive := true;
    }
  }

  /** The range check of `command_config_hx71x`. */
  predicate GainAccepted(gainChannel: int)
  {
    1 <= gainChannel <= 4
  }

  /** `command_config_hx71x`: a gain/channel outside 1..4 shuts the MCU
      down (`null`); otherwise a powered-down sensor with that gain. */
  method ConfigHx71x(gainChannel: int, dataSize: int) returns (adc: Hx71xAdc?)
    requires 0 <= gainChannel < 256 && dataSize >= BYTES_PER_SAMPLE
    ensures adc == null <==> !GainAccepted(gainChannel)
    ensures adc != null ==> fresh(adc) && fresh(adc.data) && adc.Valid() && adc.gainChannel == gainChannel
                            && adc.sclkHigh && !adc.pendingFlag && !adc.timerActive
  {
    if !GainAccepted(gainChannel) {
      return null;
    }
    adc := new Hx71xAdc(gainChannel, dataSize);
  }
}
