/** The MCU side of the second-order-sections filter: fixed-point
    multiplication with rounding and an overflow shutdown, the per-sample
    update of a cascade of sections, and the configuration commands that
    fill the sections and activate the filter.  A `shutdown` of the MCU
    is an error result (`None` or `false`). */
module SosFilterMcu {
  import opened Ints
  import opened Wrappers

  /** `SECTION_WIDTH`: coefficients b0, b1, b2, a1, a2 of one section. */
  const SECTION_WIDTH: int := 5
  /** `STATE_WIDTH`: the two delay words of one section. */
  const STATE_WIDTH: int := 2

  /** One `sos_section`: its coefficients and state, all int32. */
  datatype Section = Section(coeff: seq<int>, state: seq<int>)

  predicate SectionValid(s: Section)
  {
    && |s.coeff| == SECTION_WIDTH && |s.state| == STATE_WIDTH
    && (forall i :: 0 <= i < SECTION_WIDTH ==> IsI32(s.coeff[i]))
    && (forall i :: 0 <= i < STATE_WIDTH ==> IsI32(s.state[i]))
  }

  predicate AllSectionsValid(secs: seq<Section>)
  {
    forall i :: 0 <= i < |secs| ==> SectionValid(secs[i])
  }

  /** Storing a valid section keeps every section valid. */
  lemma {:induction false} ValidAfterStore(secs: seq<Section>, i: nat, s: Section)
    requires AllSectionsValid(secs) && i < |secs| && SectionValid(s)
    ensures AllSectionsValid(secs[i := s])
  {
    var t := secs[i := s];
    forall j | 0 <= j < |t|
      ensures SectionValid(t[j])
    {
      if j != i {
        assert t[j] == secs[j];
      }
    }
  }

  /** Past `n >= k`, the done prefix followed by the untouched rest agrees
      with the original. */
  lemma {:induction false} FrameAfter(done: seq<Section>, orig: seq<Section>, k: nat, n: nat)
    requires |done| == k <= n <= |orig|
    ensures forall i :: n <= i < |orig| ==> (done + orig[k..])[i] == orig[i]
  {
  }

  /** Storing at the first untouched position moves it into the done
      prefix. */
  lemma {:induction false} StoreNext(done: seq<Section>, orig: seq<Section>, k: nat, s: Section)
    requires |done| == k < |orig|
    ensures (done + orig[k..])[k := s] == done + [s] + orig[k + 1..]
  {
  }

  /** `(product + (1 << (shiftRight - 1))) >> shiftRight`: the product
      scaled by 2^-shiftRight and rounded to nearest, ties upward. */
  function RoundShift(product: int, shiftRight: int): (r: int)
    requires 1 <= shiftRight <= 31
    ensures r * Pow2(shiftRight) - Pow2(shiftRight - 1) <= product < r * Pow2(shiftRight) + Pow2(shiftRight - 1)
  {
    assert Pow2(shiftRight) == 2 * Pow2(shiftRight - 1);
    Shr(product + Pow2(shiftRight - 1), shiftRight)
  }

  /** `fixed_mul`: the 64-bit product of coefficient and value, rounded
      back to the value's scale; `None` (shutdown) when it leaves int32.
      The product of two int32 and the rounding half fit in int64. */
  function FixedMul(coeff: int, value: int, shiftRight: int): (r: Option<int>)
    requires IsI32(coeff) && IsI32(value) && 1 <= shiftRight <= 31
    ensures r.Some? ==> IsI32(r.value) && r.value == RoundShift(coeff * value, shiftRight)
    ensures r.None? ==> !IsI32(RoundShift(coeff * value, shiftRight))
  {
    var result := RoundShift(coeff * value, shiftRight);
    if !IsI32(result) then None else Some(result)
  }

  /** Multiplying by 1.0 in the filter's fixed-point format (2^shiftRight)
      gives the value back. */
  lemma {:induction false} FixedMulUnit(value: int, shiftRight: int)
    requires IsI32(value) && 1 <= shiftRight <= 30
    ensures IsI32(Pow2(shiftRight))
    ensures FixedMul(Pow2(shiftRight), value, shiftRight) == Some(value)
  {
    UnitFits(shiftRight);
    RoundShiftExact(value, shiftRight);
  }

  lemma {:induction false} UnitFits(shiftRight: int)
    requires 1 <= shiftRight <= 30
    ensures IsI32(Pow2(shiftRight))
  {
    Pow2Values();
    Pow2Mono(shiftRight, 30);
    assert Pow2(31) == 2 * Pow2(30);
  }

  /** Rounding an exact multiple of the unit gives the multiple back. */
  lemma {:induction false} RoundShiftExact(value: int, shiftRight: int)
    requires 1 <= shiftRight <= 31
    ensures RoundShift(Pow2(shiftRight) * value, shiftRight) == value
  {
    var p, h := Pow2(shiftRight), Pow2(shiftRight - 1);
    assert p == 2 * h;
    ScaleBack(value, p, h);
    RoundShiftIs(p * value, shiftRight, value);
  }

  lemma {:induction false} RoundShiftIs(product: int, shiftRight: int, q: int)
    requires 1 <= shiftRight <= 31
    requires (product + Pow2(shiftRight - 1)) / Pow2(shiftRight) == q
    ensures RoundShift(product, shiftRight) == q
  {
  }

  /** Adding less than one unit before dividing by the unit is undone. */
  lemma {:induction false} ScaleBack(value: int, p: int, h: int)
    requires 0 <= h < p
    ensures (p * value + h) / p == value
  {
    ModUnique(p * value + h, p, value, h);
  }

  lemma {:induction false} Pow2Mono(a: nat, b: nat)
    requires a <= b
    ensures Pow2(a) <= Pow2(b)
  {
    if a < b {
      Pow2Mono(a, b - 1);
    }
  }

  /** A zero coefficient contributes exactly zero. */
  lemma {:induction false} FixedMulZero(value: int, shiftRight: int)
    requires IsI32(value) && 1 <= shiftRight <= 31
    ensures FixedMul(0, value, shiftRight) == Some(0)
  {
    var h := Pow2(shiftRight - 1);
    assert Pow2(shiftRight) == 2 * h;
    ScaleBack(0, Pow2(shiftRight), h);
    assert RoundShift(0, shiftRight) == 0;
  }

  /** One section of `sos_filter_update`: y = b0*x + s0, then
      s0 := b1*x - a1*y + s1 and s1 := b2*x - a2*y, each product through
      `FixedMul`; the 32-bit sums wrap.  The result is the updated section
      and y. */
  function SectionStep(sec: Section, x: int, shiftRight: int): (r: Option<(Section, int)>)
    requires SectionValid(sec) && IsI32(x) && 1 <= shiftRight <= 31
    ensures r.Some? ==> SectionValid(r.value.0) && r.value.0.coeff == sec.coeff && IsI32(r.value.1)
  {
    match FixedMul(sec.coeff[0], x, shiftRight)
    case None => None
    case Some(m0) =>
      var y := I32(m0 + sec.state[0]);
      match (FixedMul(sec.coeff[1], x, shiftRight), FixedMul(sec.coeff[3], y, shiftRight),
             FixedMul(sec.coeff[2], x, shiftRight), FixedMul(sec.coeff[4], y, shiftRight))
      case (Some(m1), Some(m3), Some(m2), Some(m4)) =>
        Some((sec.(state := [I32(m1 - m3 + sec.state[1]), I32(m2 - m4)]), y))
      case _ => None
  }

  /** The sections `secs` applied in order to `x`: the updated sections and
      the output, or `None` when some product overflows. */
  function Cascade(secs: seq<Section>, x: int, shiftRight: int): (r: Option<(seq<Section>, int)>)
    requires AllSectionsValid(secs) && IsI32(x) && (secs == [] || 1 <= shiftRight <= 31)
    ensures r.Some? ==> |r.value.0| == |secs| && AllSectionsValid(r.value.0) && IsI32(r.value.1)
    ensures r.Some? ==> forall i :: 0 <= i < |secs| ==> r.value.0[i].coeff == secs[i].coeff
  {
    if secs == [] then Some(([], x))
    else
      var n := |secs| - 1;
      match Cascade(secs[..n], x, shiftRight)
      case None => None
      case Some(p) =>
        match SectionStep(secs[n], p.1, shiftRight)
        case None => None
        case Some(q) => Some((p.0 + [q.0], q.1))
  }

  /** One more section extends the cascade by one `SectionStep`. */
  lemma {:induction false} CascadeSnoc(secs: seq<Section>, k: nat, x: int, shiftRight: int)
    requires AllSectionsValid(secs) && IsI32(x) && 1 <= shiftRight <= 31
    requires k < |secs| && Cascade(secs[..k], x, shiftRight).Some?
    ensures var p := Cascade(secs[..k], x, shiftRight).value;
            SectionStep(secs[k], p.1, shiftRight).None? ==> Cascade(secs[..k + 1], x, shiftRight).None?
    ensures var p := Cascade(secs[..k], x, shiftRight).value;
            var q := SectionStep(secs[k], p.1, shiftRight);
            q.Some? ==> Cascade(secs[..k + 1], x, shiftRight) == Some((p.0 + [q.value.0], q.value.1))
  {
    assert secs[..k + 1][..k] == secs[..k];
  }

  /** Once an overflow has shut the filter down, later sections cannot
      bring it back. */
  lemma {:induction false} CascadeNoneExtends(secs: seq<Section>, k: nat, x: int, shiftRight: int)
    requires AllSectionsValid(secs) && IsI32(x) && 1 <= shiftRight <= 31
    requires k <= |secs| && Cascade(secs[..k], x, shiftRight).None?
    ensures Cascade(secs, x, shiftRight).None?
  {
    if k < |secs| {
      var n := |secs| - 1;
      assert secs[..n][..k] == secs[..k];
      CascadeNoneExtends(secs[..n], k, x, shiftRight);
    } else {
      assert secs[..k] == secs;
    }
  }

  /** A section that is 1.0 in the fixed-point format (b0 = 2^shiftRight,
      every other coefficient 0) with a zero state. */
  predicate IsUnitSection(sec: Section, shiftRight: nat)
  {
    sec == Section([Pow2(shiftRight), 0, 0, 0, 0], [0, 0])
  }

  /** A cascade of unit sections passes every sample through unchanged and
      keeps its state zero. */
  lemma {:induction false} UnitCascade(secs: seq<Section>, x: int, shiftRight: nat)
    requires IsI32(x) && 1 <= shiftRight <= 30
    requires forall i :: 0 <= i < |secs| ==> IsUnitSection(secs[i], shiftRight)
    ensures AllSectionsValid(secs)
    ensures Cascade(secs, x, shiftRight) == Some((secs, x))
  {
    FixedMulUnit(x, shiftRight);
    FixedMulZero(x, shiftRight);
    if secs != [] {
      var n := |secs| - 1;
      UnitCascade(secs[..n], x, shiftRight);
      assert secs[..n] + [secs[n]] == secs;
    }
  }

  /** `set_active`'s check as the source writes it: the section count,
      read as uint32, must be below `max_sections`. */
  predicate ActiveAcceptedAsWritten(numSections: int, maxSections: int)
  {
    U32(numSections) < maxSections
  }

  /** The check as intended: any count up to `max_sections` fits the
      allocated sections. */
  predicate ActiveAccepted(numSections: int, maxSections: int)
  {
    U32(numSections) <= maxSections
  }

  /** The intended check accepts exactly the counts 0..max_sections. */
  lemma {:induction false} ActiveAcceptedRange(numSections: int, maxSections: int)
    requires IsI32(numSections) && 0 <= maxSections < TWO_31
    ensures ActiveAccepted(numSections, maxSections) <==> 0 <= numSections <= maxSections
  {
  }

  /** As written, activating every allocated section shuts the MCU down. */
  lemma {:induction false} AsWrittenRejectsFullFilter(maxSections: int)
    requires 0 <= maxSections < TWO_32
    ensures !ActiveAcceptedAsWritten(maxSections, maxSections)
    ensures ActiveAccepted(maxSections, maxSections)
  {
  }

  /** `sos_filter`: the sections allocated by `config_sos_filter`, and how
      many of them `set_active` made live with which shift. */
  class SosFilter {
    const maxSections: int
    var numSections: int
    var shiftRight: int
    const filter: array<Section>

    predicate Valid()
      reads this, filter
    {
      && IsU32(maxSections) && filter.Length == maxSections
      && IsI32(numSections) && numSections <= maxSections && IsU32(shiftRight)
      && AllSectionsValid(filter[..])
    }

    /** `command_config_sos_filter`: `maxSections` zeroed sections and
        `num_sections = -1`, so the filter is not yet usable. */
    constructor (maxSections: int)
      requires IsU32(maxSections)
      ensures Valid() && fresh(filter)
      ensures this.maxSections == maxSections && numSections == -1 && shiftRight == 0
      ensures filter[..] == seq(maxSections, _ => Section([0, 0, 0, 0, 0], [0, 0]))
    {
      this.maxSections := maxSections;
      numSections := -1;
      shiftRight := 0;
      filter := new Section[maxSections](_ => Section([0, 0, 0, 0, 0], [0, 0]));
    }

    /** `sos_filter_update`: run one sample through the live sections.
        Before activation it shuts down; with no live section the sample
        passes through and nothing changes; otherwise the result and the
        new sections are those of `Cascade`, and sections past the live
        ones are neither read nor written. */
    method Update(x: int) returns (r: Option<int>)
      requires Valid() && IsI32(x)
      requires numSections <= 0 || 1 <= shiftRight <= 31
      modifies filter
      ensures Valid()
      ensures numSections < 0 ==> r.None? && filter[..] == old(filter[..])
      ensures numSections == 0 ==> r == Some(x) && filter[..] == old(filter[..])
      ensures numSections >= 0 ==>
                (r.Some? <==> Cascade(old(filter[..numSections]), x, shiftRight).Some?)
      ensures numSections >= 0 && r.Some? ==>
                Cascade(old(filter[..numSections]), x, shiftRight) == Some((filter[..numSections], r.value))
      ensures forall i :: 0 <= i < filter.Length && i >= numSections ==> filter[i] == old(filter[i])
    {
      if numSections < 0 {
        return None;
      }
      r := ApplySections(numSections, x);
      if numSections == 0 {
        assert old(filter[..0]) == [];
        assert filter[..] == old(filter[..]);
      }
    }

    /** The section loop of `sos_filter_update` over the first `n` sections. */
    method ApplySections(n: int, x: int) returns (r: Option<int>)
      requires 0 <= n <= filter.Length && IsI32(x) && AllSectionsValid(filter[..])
      requires n == 0 || 1 <= shiftRight <= 31
      modifies filter
      ensures AllSectionsValid(filter[..])
      ensures r.Some? <==> Cascade(old(filter[..n]), x, shiftRight).Some?
      ensures r.Some? ==> Cascade(old(filter[..n]), x, shiftRight) == Some((filter[..n], r.value))
      ensures forall i :: n <= i < filter.Length ==> filter[i] == old(filter[i])
    {
      ghost var orig := filter[..];
      ghost var secs := filter[..n];
      ghost var done: seq<Section> := [];
      var cur := x;
      for section := 0 to n
        invariant AllSectionsValid(filter[..]) && IsI32(cur)
        invariant |done| == section && filter[..] == done + orig[section..]
        invariant Cascade(secs[..section], x, shiftRight) == Some((done, cur))
      {
        assert secs[section] == orig[section] == filter[section];
        CascadeSnoc(secs, section, x, shiftRight);
        ghost var before := filter[..];
        var next := StepSection(section, cur);
        if next.None? {
          CascadeNoneExtends(secs, section + 1, x, shiftRight);
          assert filter[..] == before == done + orig[section..];
          FrameAfter(done, orig, section, n);
          return None;
        }
        StoreNext(done, orig, section, filter[section]);
        done := done + [filter[section]];
        cur := next.value;
      }
      assert secs[..n] == secs;
      assert filter[..n] == filter[..][..n] == done;
      FrameAfter(done, orig, n, n);
      return Some(cur);
    }

    /** One pass of the section loop: run `cur` through section `section`
        and store its new state in place. */
    method StepSection(section: int, cur: int) returns (next: Option<int>)
      requires 0 <= section < filter.Length && AllSectionsValid(filter[..]) && IsI32(cur)
      requires 1 <= shiftRight <= 31
      modifies filter
      ensures AllSectionsValid(filter[..])
      ensures var st := SectionStep(old(filter[section]), cur, shiftRight);
              && (next.None? <==> st.None?)
              && (st.None? ==> filter[..] == old(filter[..]))
              && (st.Some? ==> filter[..] == old(filter[..])[section := st.value.0] && next == Some(st.value.1))
    {
      var step := SectionStep(filter[section], cur, shiftRight);
      if step.None? {
        return None;
      }
      ghost var before := filter[..];
      filter[section] := step.value.0;
      assert filter[..] == before[section := step.value.0];
      ValidAfterStore(before, section, step.value.0);
      return Some(step.value.1);
    }

    /** `command_sos_filter_set_section`: shut down on an index past the
        allocation, otherwise store the five coefficients (each argument
        read as int32) of that section and nothing else. */
    method SetSection(sectionIdx: int, args: seq<int>) returns (ok: bool)
      requires Valid() && IsU32(sectionIdx) && |args| == SECTION_WIDTH
      modifies filter
      ensures Valid()
      ensures ok <==> sectionIdx < maxSections
      ensures ok ==> filter[..] == old(filter[..])[sectionIdx :=
                       old(filter[sectionIdx]).(coeff := seq(SECTION_WIDTH, i requires 0 <= i < SECTION_WIDTH => I32(args[i])))]
      ensures !ok ==> filter[..] == old(filter[..])
    {
      if sectionIdx >= maxSections {
        return false;
      }
      var coeff := seq(SECTION_WIDTH, i requires 0 <= i < SECTION_WIDTH => I32(args[i]));
      filter[sectionIdx] := filter[sectionIdx].(coeff := coeff);
      return true;
    }

    /** `command_sos_filter_set_state`: the same for the two state words. */
    method SetState(sectionIdx: int, args: seq<int>) returns (ok: bool)
      requires Valid() && IsU32(sectionIdx) && |args| == STATE_WIDTH
      modifies filter
      ensures Valid()
      ensures ok <==> sectionIdx < maxSections
      ensures ok ==> filter[..] == old(filter[..])[sectionIdx :=
                       old(filter[sectionIdx]).(state := [I32(args[0]), I32(args[1])])]
      ensures !ok ==> filter[..] == old(filter[..])
    {
      if sectionIdx >= maxSections {
        return false;
      }
      filter[sectionIdx] := filter[sectionIdx].(state := [I32(args[0]), I32(args[1])]);
      return true;
    }

    /** `command_sos_filter_set_active` with the intended check (see
        `ActiveAcceptedAsWritten`): shut down on a count past the
        allocation, otherwise store the count and the shift. */
    method SetActive(num: int, shift: int) returns (ok: bool)
      requires Valid() && IsI32(num) && IsU32(shift)
      modifies this`numSections, this`shiftRight
      ensures Valid()
      ensures ok <==> ActiveAccepted(num, maxSections)
      ensures ok ==> numSections == num && shiftRight == shift
      ensures !ok ==> numSections == old(numSections) && shiftRight == old(shiftRight)
    {
      if !ActiveAccepted(num, maxSections) {
        return false;
      }
      numSections, shiftRight := num, shift;
      return true;
    }
  }
}
