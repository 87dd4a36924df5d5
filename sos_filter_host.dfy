/** The host side of the second-order-sections filter: conversion of
    floating-point coefficients to the MCU's fixed-point formats with
    int32 range checks, validation and reshaping of six-coefficient
    sections into the five the MCU stores, and the command list that
    configures, resets and activates a filter. */
module SosFilterHost {
  import opened Ints
  import opened Wrappers
  import opened SosFilterMcu

  /** `MAX_INT32` and `MIN_INT32` as the source writes them. */
  const MAX_INT32_AS_WRITTEN: int := 0x8000_0000
  const MIN_INT32_AS_WRITTEN: int := -0x8000_0000 - 1

  /** Fraction bits of Q1 (one integer bit) and Q16 (sixteen) in 32 bits. */
  const Q1_FRAC_BITS: nat := 32 - (1 + 1)
  const Q16_FRAC_BITS: nat := 32 - (1 + 16)

  /** `NUM_SECTIONS`: sections allocated on the MCU; `SHIFT_RIGHT`: the Q1 shift. */
  const NUM_SECTIONS: int := 4
  const SHIFT_RIGHT: int := 30

  datatype HostError =
    | Overflow
    | TooManySections(count: int)
    | WrongCoefficientCount(count: int)
    | CoefficientThreeNotOne(value: real)

  /** `assert_is_int32` as written: the bounds are one past int32 on both
      sides, so 2^31 and -2^31-1 are let through. */
  function AssertIsInt32AsWritten(value: int): (r: Result<int, HostError>)
    ensures r.Ok? ==> r.value == value
  {
    if value > MAX_INT32_AS_WRITTEN || value < MIN_INT32_AS_WRITTEN then Err(Overflow) else Ok(value)
  }

  /** The values the as-written check lets through that are not int32; the
      MCU reads 2^31 back as -2^31, flipping the coefficient's sign. */
  lemma {:induction false} AsWrittenAcceptsNonInt32()
    ensures AssertIsInt32AsWritten(TWO_31) == Ok(TWO_31) && !IsI32(TWO_31) && I32(TWO_31) == -TWO_31
    ensures AssertIsInt32AsWritten(-TWO_31 - 1).Ok? && !IsI32(-TWO_31 - 1)
  {
  }

  /** `assert_is_int32` with the int32 bounds: an overflow error exactly
      when the value is not an int32, the value itself otherwise. */
  function AssertIsInt32(value: int): (r: Result<int, HostError>)
    ensures r.Ok? <==> IsI32(value)
    ensures r.Ok? ==> r.value == value
  {
    if value > TWO_31 - 1 || value < -TWO_31 then Err(Overflow) else Ok(value)
  }

  /** The as-written check is the intended one except at the two values
      just outside int32. */
  lemma {:induction false} AssertIsInt32Differs(value: int)
    ensures AssertIsInt32AsWritten(value) != AssertIsInt32(value) <==> value == TWO_31 || value == -TWO_31 - 1
  {
  }

  /** `as_fixed_q1` / `as_fixed_q16`: `int(val * 2^frac)` (truncation
      toward zero), range-checked. */
  function AsFixed(val: real, fracBits: nat): (r: Result<int, HostError>)
    ensures r.Ok? <==> IsI32(Trunc(Scaled(val, fracBits)))
    ensures r.Ok? ==> r.value == Trunc(Scaled(val, fracBits))
  {
    AssertIsInt32(Trunc(Scaled(val, fracBits)))
  }

  /** `as_fixed_q1` / `as_fixed_q16` exactly as written, on top of the
      as-written range check. */
  function AsFixedAsWritten(val: real, fracBits: nat): (r: Result<int, HostError>)
    ensures r.Ok? <==> MIN_INT32_AS_WRITTEN <= Trunc(Scaled(val, fracBits)) <= MAX_INT32_AS_WRITTEN
    ensures r.Ok? ==> r.value == Trunc(Scaled(val, fracBits))
  {
    AssertIsInt32AsWritten(Trunc(Scaled(val, fracBits)))
  }

  /** Q1 of 2.0 as written: 2^31 is let through and the MCU reads it as
      -2^31, i.e. a coefficient of -2.0; the corrected conversion reports
      the overflow instead. */
  lemma {:induction false} AsWrittenQ1FlipsTwo()
    ensures AsFixedAsWritten(2.0, Q1_FRAC_BITS) == Ok(TWO_31)
    ensures I32(AsFixedAsWritten(2.0, Q1_FRAC_BITS).value) == -TWO_31
    ensures AsFixedQ1(2.0) == Err(Overflow)
  {
    Pow2Values();
    Pow2Add(Q1_FRAC_BITS, 1);
    assert Scaled(2.0, Q1_FRAC_BITS) == TWO_31 as real;
  }

  /** `val * 2^fracBits`. */
  function Scaled(val: real, fracBits: nat): real
  {
    val * Pow2(fracBits) as real
  }

  function AsFixedQ1(val: real): Result<int, HostError>
  {
    AsFixed(val, Q1_FRAC_BITS)
  }

  function AsFixedQ16(val: real): Result<int, HostError>
  {
    AsFixed(val, Q16_FRAC_BITS)
  }

  /** Every value whose scaled form lies in [-2^31, 2^31) converts, to
      within one unit of the last place. */
  lemma {:induction false} AsFixedInRange(val: real, fracBits: nat)
    requires -(TWO_31 as real) <= Scaled(val, fracBits) < TWO_31 as real
    ensures AsFixed(val, fracBits).Ok?
    ensures var x := Scaled(val, fracBits);
            var q := AsFixed(val, fracBits).value as real;
            q - 1.0 < x < q + 1.0
  {
    TruncFits(Scaled(val, fracBits));
  }

  lemma {:induction false} TruncFits(x: real)
    requires -(TWO_31 as real) <= x < TWO_31 as real
    ensures IsI32(Trunc(x))
    ensures Trunc(x) as real - 1.0 < x < Trunc(x) as real + 1.0
  {
  }

  /** In particular Q1 covers [-2, 2) and Q16 covers [-65536, 65536). */
  lemma {:induction false} FixedRanges()
    ensures Pow2(Q1_FRAC_BITS) * 2 == Pow2(31)
    ensures Pow2(Q16_FRAC_BITS) * 0x1_0000 == Pow2(31)
  {
    Pow2Add(Q1_FRAC_BITS, 1);
    Pow2Add(Q16_FRAC_BITS, 16);
    Pow2Values();
  }

  /** Columns `0..k-1` of one section: every column but 3 converted to Q1,
      column 3 checked to be 1.0; the first failing column decides the
      error. */
  function ConvertColumns(section: seq<real>, k: nat): (r: Result<seq<int>, HostError>)
    requires k <= |section|
  {
    if k == 0 then Ok([])
    else
      match ConvertColumns(section, k - 1)
      case Err(e) => Err(e)
      case Ok(acc) =>
        if k - 1 != 3 then
          match AsFixedQ1(section[k - 1])
          case Err(e) => Err(e)
          case Ok(v) => Ok(acc + [v])
        else if section[k - 1] != 1.0 then Err(CoefficientThreeNotOne(section[k - 1]))
        else Ok(acc)
  }

  /** One section of `_convert_filters_to_q1`. */
  function ConvertSection(section: seq<real>): Result<seq<int>, HostError>
  {
    if |section| != 6 then Err(WrongCoefficientCount(|section|)) else ConvertColumns(section, 6)
  }

  /** The first `k` columns convert exactly when column 3 (if reached)
      is 1.0 and every other column fits Q1; the result holds the
      converted columns in order with column 3 left out. */
  lemma {:induction false} ConvertColumnsMeaning(section: seq<real>, k: nat)
    requires k <= |section|
    ensures ConvertColumns(section, k).Ok? <==>
              (3 < k ==> section[3] == 1.0) &&
              forall c :: 0 <= c < k && c != 3 ==> AsFixedQ1(section[c]).Ok?
    ensures ConvertColumns(section, k).Ok? ==>
              var v := ConvertColumns(section, k).value;
              && |v| == (if k > 3 then k - 1 else k)
              && (forall c :: 0 <= c < k && c < 3 ==> v[c] == AsFixedQ1(section[c]).value)
              && (forall c :: 4 <= c < k ==> v[c - 1] == AsFixedQ1(section[c]).value)
  {
    if k > 0 {
      ConvertColumnsMeaning(section, k - 1);
    }
  }

  /** A section converts exactly when it has six coefficients, the fourth
      is 1.0 and the other five fit Q1; the result is those five, in
      column order 0, 1, 2, 4, 5. */
  lemma {:induction false} ConvertSectionMeaning(section: seq<real>)
    ensures ConvertSection(section).Ok? <==>
              |section| == 6 && section[3] == 1.0 &&
              forall c :: 0 <= c < 6 && c != 3 ==> AsFixedQ1(section[c]).Ok?
    ensures ConvertSection(section).Ok? ==>
              ConvertSection(section).value == [AsFixedQ1(section[0]).value, AsFixedQ1(section[1]).value,
                                                AsFixedQ1(section[2]).value, AsFixedQ1(section[4]).value,
                                                AsFixedQ1(section[5]).value]
  {
    if |section| == 6 {
      ConvertColumnsMeaning(section, 6);
      if ConvertSection(section).Ok? {
        var v := ConvertSection(section).value;
        assert v[3] == AsFixedQ1(section[4]).value;
        assert v[4] == AsFixedQ1(section[5]).value;
      }
    }
  }

  /** Sections `0..k-1`, converted in order; the first failing one decides
      the error. */
  function ConvertSections(sections: seq<seq<real>>, k: nat): (r: Result<seq<seq<int>>, HostError>)
    requires k <= |sections|
    ensures r.Ok? ==> |r.value| == k
  {
    if k == 0 then Ok([])
    else
      match ConvertSections(sections, k - 1)
      case Err(e) => Err(e)
      case Ok(acc) =>
        match ConvertSection(sections[k - 1])
        case Err(e) => Err(e)
        case Ok(v) => Ok(acc + [v])
  }

  /** `_convert_filters_to_q1`. */
  function ConvertFilters(sections: seq<seq<real>>): (r: Result<seq<seq<int>>, HostError>)
  {
    if |sections| > NUM_SECTIONS then Err(TooManySections(|sections|))
    else ConvertSections(sections, |sections|)
  }

  /** The filters convert exactly when there are at most four sections and
      each converts; the result keeps the count and converts each section. */
  lemma {:induction false} ConvertFiltersMeaning(sections: seq<seq<real>>)
    ensures ConvertFilters(sections).Ok? <==>
              |sections| <= NUM_SECTIONS && forall i :: 0 <= i < |sections| ==> ConvertSection(sections[i]).Ok?
    ensures ConvertFilters(sections).Ok? ==>
              |ConvertFilters(sections).value| == |sections| &&
              forall i :: 0 <= i < |sections| ==> ConvertFilters(sections).value[i] == ConvertSection(sections[i]).value
  {
    if |sections| <= NUM_SECTIONS {
      ConvertSectionsMeaning(sections, |sections|);
    }
  }

  lemma {:induction false} ConvertSectionsMeaning(sections: seq<seq<real>>, k: nat)
    requires k <= |sections|
    ensures ConvertSections(sections, k).Ok? <==> forall i :: 0 <= i < k ==> ConvertSection(sections[i]).Ok?
    ensures ConvertSections(sections, k).Ok? ==>
              forall i :: 0 <= i < k ==> ConvertSections(sections, k).value[i] == ConvertSection(sections[i]).value
  {
    if k > 0 {
      ConvertSectionsMeaning(sections, k - 1);
    }
  }

  /** The column loop of `_convert_filters_to_q1` for one section. */
  method ConvertSectionQ1(section: seq<real>) returns (r: Result<seq<int>, HostError>)
    ensures r == ConvertSection(section)
  {
    if |section| != 6 {
      return Err(WrongCoefficientCount(|section|));
    }
    var fixedSection: seq<int> := [];
    for col := 0 to 6
      invariant ConvertColumns(section, col) == Ok(fixedSection)
    {
      if col != 3 {
        var v := AsFixedQ1(section[col]);
        if v.Err? {
          ColumnsErrExtend(section, col + 1, 6);
          return Err(v.error);
        }
        fixedSection := fixedSection + [v.value];
      } else if section[col] != 1.0 {
        ColumnsErrExtend(section, col + 1, 6);
        return Err(CoefficientThreeNotOne(section[col]));
      }
    }
    return Ok(fixedSection);
  }

  lemma {:induction false} ColumnsErrExtend(section: seq<real>, k: nat, m: nat)
    requires k <= m <= |section| && ConvertColumns(section, k).Err?
    ensures ConvertColumns(section, m) == ConvertColumns(section, k)
    decreases m - k
  {
    if k < m {
      ColumnsErrExtend(section, k + 1, m);
    }
  }

  lemma {:induction false} SectionsErrExtend(sections: seq<seq<real>>, k: nat, m: nat)
    requires k <= m <= |sections| && ConvertSections(sections, k).Err?
    ensures ConvertSections(sections, m) == ConvertSections(sections, k)
    decreases m - k
  {
    if k < m {
      SectionsErrExtend(sections, k + 1, m);
    }
  }

  /** `_convert_filters_to_q1`: the section loop. */
  method ConvertFiltersToQ1(filterSections: seq<seq<real>>) returns (r: Result<seq<seq<int>>, HostError>)
    ensures r == ConvertFilters(filterSections)
  {
    var numSections := |filterSections|;
    if numSections > NUM_SECTIONS {
      return Err(TooManySections(numSections));
    }
    var sosFixed: seq<seq<int>> := [];
    for i := 0 to numSections
      invariant ConvertSections(filterSections, i) == Ok(sosFixed)
    {
      var fixedSection := ConvertSectionQ1(filterSections[i]);
      if fixedSection.Err? {
        SectionsErrExtend(filterSections, i + 1, numSections);
        return Err(fixedSection.error);
      }
      sosFixed := sosFixed + [fixedSection.value];
    }
    return Ok(sosFixed);
  }

  /** The MCU commands the host sends for a filter. */
  datatype Command =
    | ConfigSosFilterCmd(oid: int, maxSections: int)
    | SetSectionCmd(oid: int, sectionIdx: int, sos: seq<int>, isInit: bool)
    | SetStateCmd(oid: int, sectionIdx: int, state0: int, state1: int)
    | SetActiveCmd(oid: int, numSections: int, shiftRight: int)

  /** `create_filter`: allocate `NUM_SECTIONS` sections on the MCU. */
  function CreateFilter(oid: int): (c: Command)
    ensures c.ConfigSosFilterCmd? && c.maxSections == NUM_SECTIONS
  {
    ConfigSosFilterCmd(oid, NUM_SECTIONS)
  }

  /** The MCU's checks (with the intended `set_active` check) pass for the
      command on a filter with `maxSections` sections. */
  predicate McuAccepts(c: Command, maxSections: int)
  {
    match c
    case ConfigSosFilterCmd(_, m) => IsU32(m)
    case SetSectionCmd(_, idx, _, _) => 0 <= idx < maxSections
    case SetStateCmd(_, idx, _, _) => 0 <= idx < maxSections
    case SetActiveCmd(_, n, _) => ActiveAccepted(n, maxSections)
  }

  /** The `sos_filter_set_section` commands for the converted sections, in
      order. */
  function SectionCmds(oid: int, q: seq<seq<int>>): seq<Command>
  {
    seq(|q|, i requires 0 <= i < |q| => SetSectionCmd(oid, i, q[i], true))
  }

  /** The `sos_filter_set_state` commands zeroing sections `0..n`. */
  function ResetCmds(oid: int, n: nat): seq<Command>
  {
    seq(n, i => SetStateCmd(oid, i, 0, 0))
  }

  /** The commands `configure_filter` sends: with no sections, one all-zero
      section 0 and zero live sections; otherwise the converted sections, a
      zero state for each, then activation of all of them with the Q1
      shift. */
  function Configuration(oid: int, sosFilters: seq<seq<real>>): Result<seq<Command>, HostError>
  {
    if sosFilters == [] then
      Ok([SetSectionCmd(oid, 0, [0, 0, 0, 0, 0], false)] + ResetCmds(oid, 0) + [SetActiveCmd(oid, 0, SHIFT_RIGHT)])
    else
      match ConvertFilters(sosFilters)
      case Err(e) => Err(e)
      case Ok(q) => Ok(SectionCmds(oid, q) + ResetCmds(oid, |q|) + [SetActiveCmd(oid, |q|, SHIFT_RIGHT)])
  }

  /** The layout of the configuration: the empty filter is two commands;
      otherwise conversion decides success, and `n` converted sections give
      `n` section commands, `n` state resets and the activation of `n`. */
  lemma {:induction false} ConfigurationLayout(oid: int, sosFilters: seq<seq<real>>)
    ensures sosFilters == [] ==>
              Configuration(oid, sosFilters) == Ok([SetSectionCmd(oid, 0, [0, 0, 0, 0, 0], false), SetActiveCmd(oid, 0, SHIFT_RIGHT)])
    ensures sosFilters != [] ==> (Configuration(oid, sosFilters).Ok? <==> ConvertFilters(sosFilters).Ok?)
    ensures sosFilters != [] && Configuration(oid, sosFilters).Ok? ==>
              var r := Configuration(oid, sosFilters).value;
              var q := ConvertFilters(sosFilters).value;
              var n := |q|;
              && |r| == 2 * n + 1
              && (forall i :: 0 <= i < n ==> r[i] == SetSectionCmd(oid, i, q[i], true))
              && (forall i :: n <= i < 2 * n ==> r[i] == SetStateCmd(oid, i - n, 0, 0))
              && r[2 * n] == SetActiveCmd(oid, n, SHIFT_RIGHT)
  {
    if sosFilters == [] {
      var a := [SetSectionCmd(oid, 0, [0, 0, 0, 0, 0], false)];
      var b := [SetActiveCmd(oid, 0, SHIFT_RIGHT)];
      assert ResetCmds(oid, 0) == [];
      assert a + ResetCmds(oid, 0) + b == a + b;
      assert Configuration(oid, sosFilters) == Ok(a + ResetCmds(oid, 0) + b);
      assert a + b == [SetSectionCmd(oid, 0, [0, 0, 0, 0, 0], false), SetActiveCmd(oid, 0, SHIFT_RIGHT)];
    }
  }

  /** Every command of a successful configuration passes the MCU's checks on
      a filter made by `CreateFilter`. */
  lemma {:induction false} ConfigurationAccepted(oid: int, sosFilters: seq<seq<real>>)
    requires Configuration(oid, sosFilters).Ok?
    ensures forall c :: c in Configuration(oid, sosFilters).value ==> McuAccepts(c, CreateFilter(oid).maxSections)
  {
    var r := Configuration(oid, sosFilters).value;
    if sosFilters != [] {
      ConvertFiltersMeaning(sosFilters);
      var q := ConvertFilters(sosFilters).value;
      assert |q| <= NUM_SECTIONS;
      ActiveAcceptedRange(|q|, NUM_SECTIONS);
      forall c | c in r
        ensures McuAccepts(c, NUM_SECTIONS)
      {
        var i :| 0 <= i < |r| && r[i] == c;
        assert i < |q| || |q| <= i < 2 * |q| || i == 2 * |q|;
      }
    } else {
      ActiveAcceptedRange(0, NUM_SECTIONS);
      assert ResetCmds(oid, 0) == [];
    }
  }

  /** `configure_filter`: the command loops, proved to build
      `Configuration`. */
  method ConfigureFilter(oid: int, sosFilters: seq<seq<real>>) returns (r: Result<seq<Command>, HostError>)
    ensures r == Configuration(oid, sosFilters)
  {
    var cmds: seq<Command> := [];
    var nSections := 0;
    if sosFilters == [] {
      cmds := [SetSectionCmd(oid, 0, [0, 0, 0, 0, 0], false)];
    } else {
      var q1FilterSections := ConvertFiltersToQ1(sosFilters);
      if q1FilterSections.Err? {
        return Err(q1FilterSections.error);
      }
      var q := q1FilterSections.value;
      nSections := |q|;
      for i := 0 to nSections
        invariant cmds == SectionCmds(oid, q[..i])
      {
        cmds := cmds + [SetSectionCmd(oid, i, q[i], true)];
      }
      assert q[..nSections] == q;
    }
    ghost var base := cmds;
    for i := 0 to nSections
      invariant cmds == base + ResetCmds(oid, i)
    {
      cmds := cmds + [SetStateCmd(oid, i, 0, 0)];
    }
    cmds := cmds + [SetActiveCmd(oid, nSections, SHIFT_RIGHT)];
    return Ok(cmds);
  }

  /** `DigitalFilter` without SciPy: with no high-pass, low-pass or notch
      frequency requested it is the empty filter; any requested design is
      `None` here. */
  datatype DigitalFilter = DigitalFilter(filterSections: seq<seq<real>>, sampleFrequency: real)

  function NewDigitalFilter(sps: real, highpass: real, lowpass: real, notches: seq<real>): (r: Option<DigitalFilter>)
    ensures r.Some? <==> highpass == 0.0 && lowpass == 0.0 && notches == []
    ensures r.Some? ==> r.value.filterSections == [] && r.value.sampleFrequency == sps
  {
    if highpass == 0.0 && lowpass == 0.0 && notches == [] then Some(DigitalFilter([], sps)) else None
  }
}
