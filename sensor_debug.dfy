/** The SENSOR_DEBUG command's data handling: a hex string parsed into the
    bytes to send, and the request and response kept as lower-case hex
    for the status report. The SPI/I2C transfer itself is a parameter. */
module SensorDebug {
  import opened Wrappers
  import Ints

  /** The value of one hex digit, either case. */
  function HexDigit(c: char): (r: Option<int>)
    ensures r.Some? ==> 0 <= r.value < 16
  {
    if '0' <= c <= '9' then Some(c as int - '0' as int)
    else if 'a' <= c <= 'f' then Some(c as int - 'a' as int + 10)
    else if 'A' <= c <= 'F' then Some(c as int - 'A' as int + 10)
    else None
  }

  predicate IsHexString(s: string)
  {
    forall i :: 0 <= i < |s| ==> HexDigit(s[i]).Some?
  }

  /** `int(s, 16)` for a string of hex digits. */
  function HexValue(s: string): nat
    requires IsHexString(s)
  {
    if s == [] then 0
    else
      assert IsHexString(s[..|s| - 1]);
      HexValue(s[..|s| - 1]) * 16 + HexDigit(s[|s| - 1]).value
  }

  predicate AllBytes(bs: seq<int>)
  {
    forall i :: 0 <= i < |bs| ==> 0 <= bs[i] < 256
  }

  /** The low `n` bytes of `v`, most significant first. */
  function BytesBE(v: nat, n: nat): (r: seq<int>)
    ensures |r| == n && AllBytes(r)
  {
    if n == 0 then [] else BytesBE(v / 256, n - 1) + [v % 256]
  }

  /** The number whose bytes, most significant first, are `bs`. */
  function BEValue(bs: seq<int>): int
  {
    if bs == [] then 0 else BEValue(bs[..|bs| - 1]) * 256 + bs[|bs| - 1]
  }

  function Reversed(s: seq<int>): (r: seq<int>)
    ensures |r| == |s| && forall i :: 0 <= i < |s| ==> r[i] == s[|s| - 1 - i]
  {
    seq(|s|, i requires 0 <= i < |s| => s[|s| - 1 - i])
  }

  /** What `parse_buffer` returns: nothing for "", otherwise `|value| / 2`
      bytes of the value, most significant first; `None` when `int()`
      rejects the text. */
  function ParseSpec(value: string): Option<seq<int>>
  {
    if value == "" then Some([])
    else if IsHexString(value) then Some(BytesBE(HexValue(value), |value| / 2))
    else None
  }

  /** `parse_buffer`: peel off the low byte `|value| / 2` times, then
      reverse the list. */
  method ParseBuffer(value: string) returns (out: Option<seq<int>>)
    ensures out == ParseSpec(value)
  {
    if value == "" {
      return Some([]);
    }
    if !IsHexString(value) {
      return None;
    }
    var v := HexValue(value);
    var n := |value| / 2;
    var tval := v;
    var acc: seq<int> := [];
    for i := 0 to n
      invariant |acc| == i
      invariant BytesBE(tval, n - i) + Reversed(acc) == BytesBE(v, n)
    {
      var b := tval % 256;
      assert Reversed(acc + [b]) == [b] + Reversed(acc);
      assert BytesBE(tval, n - i) == BytesBE(tval / 256, n - i - 1) + [b];
      acc := acc + [b];
      tval := tval / 256;
    }
    assert BytesBE(tval, 0) == [];
    assert Reversed(acc) == BytesBE(v, n);
    out := Some(Reversed(acc));
  }

  /** The lower-case digit for 0..15. */
  function DigitChar(k: int): char
    requires 0 <= k < 16
  {
    if k < 10 then ('0' as int + k) as char else ('a' as int + k - 10) as char
  }

  /** `"%02x" % b`. */
  function Hex2(b: int): (r: string)
    requires 0 <= b < 256
  {
    [DigitChar(b / 16), DigitChar(b % 16)]
  }

  /** `"".join(["%02x" % (w,) for w in bs])`. */
  function FormatHex(bs: seq<int>): (r: string)
    requires AllBytes(bs)
    ensures |r| == 2 * |bs|
  {
    if bs == [] then "" else FormatHex(bs[..|bs| - 1]) + Hex2(bs[|bs| - 1])
  }

  function LowerHex(s: string): (r: string)
    ensures |r| == |s|
  {
    seq(|s|, i requires 0 <= i < |s| => if 'A' <= s[i] <= 'F' then (s[i] as int + 32) as char else s[i])
  }

  lemma {:induction false} DigitLower(c: char)
    requires HexDigit(c).Some?
    ensures 0 <= HexDigit(c).value < 16 && DigitChar(HexDigit(c).value) == LowerHex([c])[0]
  {
  }

  lemma {:induction false} DigitCharValue(k: int)
    requires 0 <= k < 16
    ensures HexDigit(DigitChar(k)) == Some(k)
  {
  }

  lemma {:induction false} PairValue(t: string, c1: char, c2: char)
    requires IsHexString(t + [c1, c2])
    ensures IsHexString(t) && HexDigit(c1).Some? && HexDigit(c2).Some?
    ensures HexValue(t + [c1, c2]) == HexValue(t) * 256 + HexDigit(c1).value * 16 + HexDigit(c2).value
  {
    var s := t + [c1, c2];
    assert s[..|s| - 1] == t + [c1];
    assert (t + [c1])[..|t|] == t;
    assert s[|s| - 2] == c1 && s[|s| - 1] == c2;
    assert IsHexString(t) by {
      forall i | 0 <= i < |t| ensures HexDigit(t[i]).Some? {
        assert t[i] == s[i];
      }
    }
  }

  /** The last two digits of a hex string make its last byte. */
  lemma {:induction false} LastPair(t: string, c1: char, c2: char)
    requires IsHexString(t + [c1, c2])
    ensures IsHexString(t) && HexDigit(c1).Some? && HexDigit(c2).Some?
    ensures BytesBE(HexValue(t + [c1, c2]), |t| / 2 + 1) ==
              BytesBE(HexValue(t), |t| / 2) + [HexDigit(c1).value * 16 + HexDigit(c2).value]
  {
    PairValue(t, c1, c2);
    var b := HexDigit(c1).value * 16 + HexDigit(c2).value;
    var v := HexValue(t + [c1, c2]);
    var w := HexValue(t);
    assert 0 <= b < 256;
    assert v == w * 256 + b;
    Ints.ModUnique(v, 256, w, b);
    var m := |t| / 2;
    assert v / 256 == w && v % 256 == b;
    calc {
      BytesBE(v, m + 1);
      BytesBE(v / 256, m) + [v % 256];
      BytesBE(w, m) + [b];
    }
  }

  /** The byte of two digits formats back as those digits in lower case. */
  lemma {:induction false} PairFormat(c1: char, c2: char)
    requires HexDigit(c1).Some? && HexDigit(c2).Some?
    ensures 0 <= HexDigit(c1).value * 16 + HexDigit(c2).value < 256
    ensures Hex2(HexDigit(c1).value * 16 + HexDigit(c2).value) == [LowerHex([c1])[0], LowerHex([c2])[0]]
  {
    var d1, d2 := HexDigit(c1).value, HexDigit(c2).value;
    DigitLower(c1);
    DigitLower(c2);
    Ints.ModUnique(d1 * 16 + d2, 16, d1, d2);
  }

  /** Parsing an even-length hex string and formatting the bytes again
      gives the string back in lower case: `last_request` echoes the
      WRITE argument. */
  lemma {:induction false} ParseThenFormat(s: string)
    requires IsHexString(s) && |s| % 2 == 0
    ensures FormatHex(BytesBE(HexValue(s), |s| / 2)) == LowerHex(s)
  {
    if s != [] {
      var n := |s|;
      var t, c1, c2 := s[..n - 2], s[n - 2], s[n - 1];
      assert s == t + [c1, c2];
      LastPair(t, c1, c2);
      PairFormat(c1, c2);
      ParseThenFormat(t);
      var b := HexDigit(c1).value * 16 + HexDigit(c2).value;
      var pre := BytesBE(HexValue(t), |t| / 2);
      assert n / 2 == |t| / 2 + 1;
      assert BytesBE(HexValue(s), n / 2) == pre + [b];
      assert (pre + [b])[..|pre|] == pre;
      LowerHexPair(t, c1, c2);
    }
  }

  lemma {:induction false} LowerHexPair(t: string, c1: char, c2: char)
    ensures LowerHex(t + [c1, c2]) == LowerHex(t) + [LowerHex([c1])[0], LowerHex([c2])[0]]
  {
  }

  lemma {:induction false} FormatHexIsHex(bs: seq<int>)
    requires AllBytes(bs)
    ensures IsHexString(FormatHex(bs)) && HexValue(FormatHex(bs)) == BEValue(bs)
  {
    if bs != [] {
      var pre, b := bs[..|bs| - 1], bs[|bs| - 1];
      FormatHexIsHex(pre);
      var t := FormatHex(pre);
      var c1, c2 := DigitChar(b / 16), DigitChar(b % 16);
      DigitCharValue(b / 16);
      DigitCharValue(b % 16);
      assert FormatHex(bs) == t + [c1, c2];
      assert IsHexString(t + [c1, c2]) by {
        forall i | 0 <= i < |t| + 2 ensures HexDigit((t + [c1, c2])[i]).Some? {
          if i < |t| {
            assert (t + [c1, c2])[i] == t[i];
          }
        }
      }
      PairValue(t, c1, c2);
    }
  }

  lemma {:induction false} BytesOfBEValue(bs: seq<int>)
    requires AllBytes(bs)
    ensures BEValue(bs) >= 0 && BytesBE(BEValue(bs), |bs|) == bs
  {
    if bs != [] {
      var pre, b := bs[..|bs| - 1], bs[|bs| - 1];
      BytesOfBEValue(pre);
      Ints.ModUnique(BEValue(bs), 256, BEValue(pre), b);
      assert bs == pre + [b];
    }
  }

  /** Formatting bytes as hex and parsing the text gives the bytes back. */
  lemma {:induction false} FormatThenParse(bs: seq<int>)
    requires AllBytes(bs)
    ensures ParseSpec(FormatHex(bs)) == Some(bs)
  {
    if bs != [] {
      FormatHexIsHex(bs);
      BytesOfBEValue(bs);
      var t := FormatHex(bs);
      assert |t| / 2 == |bs| && t != "";
      assert ParseSpec(t) == Some(BytesBE(HexValue(t), |bs|));
    }
  }

  /** An odd-length string keeps only its low `|s| / 2` bytes: the leading
      digit is dropped. */
  lemma {:induction false} ParseKeepsLowBytes(v: nat, n: nat)
    ensures BEValue(BytesBE(v, n)) == v % Ints.Pow2(8 * n)
  {
    if n > 0 {
      ParseKeepsLowBytes(v / 256, n - 1);
      var bs := BytesBE(v, n);
      assert bs[..n - 1] == BytesBE(v / 256, n - 1);
      Ints.Pow2Add(8, 8 * (n - 1));
      Ints.Pow2Values();
      assert 8 + 8 * (n - 1) == 8 * n;
      ModNest(v, Ints.Pow2(8 * (n - 1)));
    }
  }

  lemma {:induction false} ModNest(v: nat, q: nat)
    requires q > 0
    ensures v % (256 * q) == ((v / 256) % q) * 256 + v % 256
  {
    var a, lo := v / 256, v % 256;
    var k, r := a / q, a % q;
    assert a == k * q + r;
    assert v == a * 256 + lo;
    assert v == k * (256 * q) + (r * 256 + lo) by {
      assert a * 256 == k * q * 256 + r * 256;
    }
    assert r * 256 + lo < 256 * q by {
      assert r <= q - 1;
      assert r * 256 <= (q - 1) * 256;
    }
    Ints.ModUnique(v, 256 * q, k, r * 256 + lo);
  }

  datatype Status = Status(lastRequest: string, lastResponse: string)

  class SensorDebugger {
    var lastRequest: string
    var lastResponse: string

    /** `get_status`. */
    function GetStatus(): Status
      reads this
    {
      Status(lastRequest, lastResponse)
    }

    constructor ()
      ensures GetStatus() == Status("", "")
    {
      lastRequest := "";
      lastResponse := "";
    }

    /** `cmd_SENSOR_DEBUG`: a WRITE argument that does not parse fails the
        command and changes nothing; otherwise the bytes are sent and the
        request and the bus's `response` are kept as hex. */
    method CmdSensorDebug(writeText: string, response: seq<int>) returns (ok: bool)
      requires AllBytes(response)
      modifies this
      ensures ok <==> ParseSpec(writeText).Some?
      ensures !ok ==> GetStatus() == old(GetStatus())
      ensures ok ==> GetStatus() == Status(FormatHex(ParseSpec(writeText).value), FormatHex(response))
    {
      var write := ParseBuffer(writeText);
      if write.None? {
        return false;
      }
      lastRequest := FormatHex(write.value);
      lastResponse := FormatHex(response);
      return true;
    }
  }
}
