/** PIVOT_COORD: a chain of rotations of the x/y/z position about pivot
    points, each driven by one registered extra (rotary) axis, installed as
    a G-code move transform in front of the toolhead. */
module PivotCoord {
  import opened Wrappers
  import opened Ints

  datatype Axis = AxisX | AxisY | AxisZ

  /** One `transform_axes` entry: the controlling object's name, the axis
      rotated about, the pivot offset, and the index of the controlling
      object among the toolhead's axes (None while not registered). */
  datatype Stage = Stage(control: string, axis: Axis, offset: (real, real, real), eaIndex: Option<nat>)

  /** The transcendental functions and constant the transform uses; their
      values are not modelled, only the identities stated in `TrigLaws`. */
  datatype Trig = Trig(cos: real -> real, sin: real -> real, sqrt: real -> real, pi: real)

  function Cos(m: Trig, t: real): real
  {
    m.cos(t)
  }

  function Sin(m: Trig, t: real): real
  {
    m.sin(t)
  }

  function Sqrt(m: Trig, t: real): real
  {
    m.sqrt(t)
  }

  /** cos is even, sin is odd, and cos^2 + sin^2 = 1. */
  ghost predicate TrigLaws(m: Trig)
  {
    && (forall t, u :: t + u == 0.0 ==> Cos(m, u) == Cos(m, t))
    && (forall t, u :: t + u == 0.0 ==> Sin(m, u) == -Sin(m, t))
    && (forall t :: Cos(m, t) * Cos(m, t) + Sin(m, t) * Sin(m, t) == 1.0)
  }

  /** Every registered stage indexes inside a position of length `n`. */
  predicate ActiveBelow(stages: seq<Stage>, n: nat)
  {
    forall i :: 0 <= i < |stages| && stages[i].eaIndex.Some? ==> stages[i].eaIndex.value < n
  }

  /** Every registered stage is driven by an extra axis (index 3 or more),
      as the toolhead's axis list always starts with x, y, z. */
  predicate ExtraAxesOnly(stages: seq<Stage>)
  {
    forall i :: 0 <= i < |stages| && stages[i].eaIndex.Some? ==> stages[i].eaIndex.value >= 3
  }

  function AxisIndex(a: Axis): nat
  {
    match a
    case AxisX => 0
    case AxisY => 1
    case AxisZ => 2
  }

  /** The pair of offset coordinates rotated about `a`. */
  function Plane(oc: (real, real, real), a: Axis): (real, real)
  {
    match a
    case AxisX => (oc.1, oc.2)
    case AxisY => (oc.2, oc.0)
    case AxisZ => (oc.0, oc.1)
  }

  /** Put the rotated pair back in place of the plane it came from. */
  function Unplane(oc: (real, real, real), cn: (real, real), a: Axis): (r: (real, real, real))
    ensures Plane(r, a) == cn
    ensures a == AxisX ==> r.0 == oc.0
    ensures a == AxisY ==> r.1 == oc.1
    ensures a == AxisZ ==> r.2 == oc.2
  {
    match a
    case AxisX => (oc.0, cn.0, cn.1)
    case AxisY => (cn.1, oc.1, cn.0)
    case AxisZ => (cn.0, cn.1, oc.2)
  }

  lemma {:induction false} UnplanePlane(oc: (real, real, real), a: Axis)
    ensures Unplane(oc, Plane(oc, a), a) == oc
  {
  }

  lemma {:induction false} UnplaneTwice(oc: (real, real, real), cn: (real, real), cm: (real, real), a: Axis)
    ensures Unplane(Unplane(oc, cn, a), cm, a) == Unplane(oc, cm, a)
  {
  }

  function Rotate(c: (real, real), cs: real, sn: real): (real, real)
  {
    (c.0 * cs - c.1 * sn, c.0 * sn + c.1 * cs)
  }

  /** Rotating back by the opposite angle restores the pair. */
  lemma {:induction false} RotateInverse(c: (real, real), cs: real, sn: real)
    requires cs * cs + sn * sn == 1.0
    ensures Rotate(Rotate(c, cs, sn), cs, -sn) == c
  {
    var r := Rotate(c, cs, sn);
    assert Rotate(r, cs, -sn) == (r.0 * cs - r.1 * (-sn), r.0 * (-sn) + r.1 * cs);
    calc {
      r.0 * cs - r.1 * (-sn);
      (c.0 * cs - c.1 * sn) * cs + (c.0 * sn + c.1 * cs) * sn;
      c.0 * (cs * cs) - c.1 * (sn * cs) + c.0 * (sn * sn) + c.1 * (cs * sn);
      c.0 * (cs * cs + sn * sn);
      c.0;
    }
    calc {
      r.0 * (-sn) + r.1 * cs;
      -(c.0 * cs - c.1 * sn) * sn + (c.0 * sn + c.1 * cs) * cs;
      -c.0 * (cs * sn) + c.1 * (sn * sn) + c.0 * (sn * cs) + c.1 * (cs * cs);
      c.1 * (cs * cs + sn * sn);
      c.1;
    }
  }

  /** The x/y/z position relative to the stage's pivot. */
  function Offset(coord: seq<real>, s: Stage): (real, real, real)
    requires |coord| >= 3
  {
    (coord[0] - s.offset.0, coord[1] - s.offset.1, coord[2] - s.offset.2)
  }

  /** Squared distance from the pivot within the rotated plane. */
  function PivotD2(coord: seq<real>, s: Stage): real
    requires |coord| >= 3
  {
    var c := Plane(Offset(coord, s), s.axis);
    c.0 * c.0 + c.1 * c.1
  }

  /** The stage's pivot offset after rotating its plane by the angle of its
      controlling axis (scaled by `pmult`). */
  function Turned(coord: seq<real>, s: Stage, pmult: real, m: Trig): (real, real, real)
    requires |coord| >= 3 && s.eaIndex.Some? && s.eaIndex.value < |coord|
  {
    TurnedBy(Offset(coord, s), s.axis, Cos(m, Angle(coord, s, pmult)), Sin(m, Angle(coord, s, pmult)))
  }

  /** The stage's rotation angle: its controlling axis position scaled by
      `pmult`. */
  function Angle(coord: seq<real>, s: Stage, pmult: real): real
    requires s.eaIndex.Some? && s.eaIndex.value < |coord|
  {
    coord[s.eaIndex.value] * pmult
  }

  /** The offset `oc` with its plane about `a` rotated by the angle whose
      cosine and sine are `cs` and `sn`. */
  function TurnedBy(oc: (real, real, real), a: Axis, cs: real, sn: real): (real, real, real)
  {
    Unplane(oc, Rotate(Plane(oc, a), cs, sn), a)
  }

  /** One stage of `pivot_coords` applied to the position: rotate the
      stage's plane about the pivot by the angle of its controlling axis
      (scaled by `pmult`); stages not registered are skipped. */
  function StepPos(coord: seq<real>, s: Stage, pmult: real, m: Trig): (r: seq<real>)
    requires |coord| >= 3 && (s.eaIndex.Some? ==> s.eaIndex.value < |coord|)
    ensures |r| == |coord| && r[3..] == coord[3..]
    ensures s.eaIndex.None? ==> r == coord
    ensures r[AxisIndex(s.axis)] == coord[AxisIndex(s.axis)]
  {
    if s.eaIndex.None? then coord
    else
      var cd := Turned(coord, s, pmult, m);
      [cd.0 + s.offset.0, cd.1 + s.offset.1, cd.2 + s.offset.2] + coord[3..]
  }

  /** One stage's effect on `pivots_d2`. */
  function StepD2(coord: seq<real>, d2: seq<real>, s: Stage): (r: seq<real>)
    requires |coord| >= 3 && (s.eaIndex.Some? ==> s.eaIndex.value < |d2|)
    ensures |r| == |d2|
    ensures s.eaIndex.None? ==> r == d2
    ensures s.eaIndex.Some? ==> r == d2[s.eaIndex.value := PivotD2(coord, s)]
  {
    if s.eaIndex.None? then d2 else d2[s.eaIndex.value := PivotD2(coord, s)]
  }

  /** A registered stage moves the pivot offset to `Turned`. */
  lemma {:induction false} StepOffset(coord: seq<real>, s: Stage, p: real, m: Trig)
    requires |coord| >= 3 && s.eaIndex.Some? && s.eaIndex.value < |coord|
    ensures Offset(StepPos(coord, s, p, m), s) == Turned(coord, s, p, m)
  {
    var cd := Turned(coord, s, p, m);
    var r := StepPos(coord, s, p, m);
    assert r == [cd.0 + s.offset.0, cd.1 + s.offset.1, cd.2 + s.offset.2] + coord[3..];
    assert r[0] == cd.0 + s.offset.0 && r[1] == cd.1 + s.offset.1 && r[2] == cd.2 + s.offset.2;
  }

  /** Two positions with the same offset from a pivot and the same extra
      axes are equal. */
  lemma {:induction false} SameOffset(a: seq<real>, b: seq<real>, s: Stage)
    requires |a| == |b| >= 3 && Offset(a, s) == Offset(b, s) && a[3..] == b[3..]
    ensures a == b
  {
    assert a[0] - s.offset.0 == Offset(a, s).0 == Offset(b, s).0 == b[0] - s.offset.0;
    assert a[1] - s.offset.1 == Offset(a, s).1 == Offset(b, s).1 == b[1] - s.offset.1;
    assert a[2] - s.offset.2 == Offset(a, s).2 == Offset(b, s).2 == b[2] - s.offset.2;
    assert a[..3] == [a[0], a[1], a[2]] == b[..3];
    assert a == a[..3] + a[3..] && b == b[..3] + b[3..];
  }

  /** A stage undone by the same stage with the opposite angle multiplier. */
  lemma {:induction false} StepInverse(coord: seq<real>, s: Stage, p: real, m: Trig)
    requires TrigLaws(m)
    requires |coord| >= 3 && (s.eaIndex.Some? ==> 3 <= s.eaIndex.value < |coord|)
    ensures StepPos(StepPos(coord, s, p, m), s, -p, m) == coord
  {
    if s.eaIndex.Some? {
      var pos := Angle(coord, s, p);
      assert Cos(m, -pos) == Cos(m, pos) && Sin(m, -pos) == -Sin(m, pos);
      assert Cos(m, pos) * Cos(m, pos) + Sin(m, pos) * Sin(m, pos) == 1.0;
      StepInverseAt(coord, s, p, m, pos);
    }
  }

  /** `StepInverse` for a registered stage, given the trigonometric
      identities at its angle. */
  lemma {:induction false} StepInverseAt(coord: seq<real>, s: Stage, p: real, m: Trig, pos: real)
    requires |coord| >= 3 && s.eaIndex.Some? && 3 <= s.eaIndex.value < |coord|
    requires pos == Angle(coord, s, p)
    requires Cos(m, -pos) == Cos(m, pos) && Sin(m, -pos) == -Sin(m, pos)
    requires Cos(m, pos) * Cos(m, pos) + Sin(m, pos) * Sin(m, pos) == 1.0
    ensures StepPos(StepPos(coord, s, p, m), s, -p, m) == coord
  {
    var ea := s.eaIndex.value;
    var y := StepPos(coord, s, p, m);
    assert y[ea] == coord[ea] by { assert y[3..][ea - 3] == coord[3..][ea - 3]; }
    var cs, sn := Cos(m, pos), Sin(m, pos);
    StepOffset(coord, s, p, m);
    TurnedAt(coord, s, p, m, cs, sn);
    BackAngle(y, coord, s, p);
    StepOffset(y, s, -p, m);
    TurnedAt(y, s, -p, m, cs, -sn);
    TurnedByInverse(Offset(coord, s), s.axis, cs, sn);
    SameOffset(StepPos(y, s, -p, m), coord, s);
  }

  /** `Turned` at an angle whose cosine and sine are known. */
  lemma {:induction false} TurnedAt(coord: seq<real>, s: Stage, p: real, m: Trig, cs: real, sn: real)
    requires |coord| >= 3 && s.eaIndex.Some? && s.eaIndex.value < |coord|
    requires cs == Cos(m, Angle(coord, s, p)) && sn == Sin(m, Angle(coord, s, p))
    ensures Turned(coord, s, p, m) == TurnedBy(Offset(coord, s), s.axis, cs, sn)
  {
  }

  /** The angle of the reverse stage is the opposite one. */
  lemma {:induction false} BackAngle(y: seq<real>, coord: seq<real>, s: Stage, p: real)
    requires s.eaIndex.Some? && s.eaIndex.value < |coord| == |y|
    requires y[s.eaIndex.value] == coord[s.eaIndex.value]
    ensures Angle(y, s, -p) == -Angle(coord, s, p)
  {
  }

  /** Turning a plane back by the opposite angle restores the offset. */
  lemma {:induction false} TurnedByInverse(oc: (real, real, real), a: Axis, cs: real, sn: real)
    requires cs * cs + sn * sn == 1.0
    ensures TurnedBy(TurnedBy(oc, a, cs, sn), a, cs, -sn) == oc
  {
    var c := Plane(oc, a);
    var cn := Rotate(c, cs, sn);
    RotateInverse(c, cs, sn);
    UnplaneTwice(oc, cn, c, a);
    UnplanePlane(oc, a);
  }

  /** The position after applying `stages` in order. */
  function ChainPos(coord: seq<real>, stages: seq<Stage>, pmult: real, m: Trig): (r: seq<real>)
    requires |coord| >= 3 && ActiveBelow(stages, |coord|)
    ensures |r| == |coord| && r[3..] == coord[3..]
    decreases |stages|
  {
    if stages == [] then coord
    else
      var prev := ChainPos(coord, stages[..|stages| - 1], pmult, m);
      StepPos(prev, stages[|stages| - 1], pmult, m)
  }

  /** `pivots_d2` after applying `stages` in order, starting from `d2`. */
  function ChainD2(coord: seq<real>, d2: seq<real>, stages: seq<Stage>, pmult: real, m: Trig): (r: seq<real>)
    requires |coord| >= 3 && |d2| == |coord| && ActiveBelow(stages, |coord|)
    ensures |r| == |d2|
    decreases |stages|
  {
    if stages == [] then d2
    else
      var k := |stages| - 1;
      StepD2(ChainPos(coord, stages[..k], pmult, m), ChainD2(coord, d2, stages[..k], pmult, m), stages[k])
  }

  /** Only entries indexed by a registered stage are written. */
  lemma {:induction false} ChainD2Untouched(coord: seq<real>, d2: seq<real>, stages: seq<Stage>, pmult: real, m: Trig, i: nat)
    requires |coord| >= 3 && |d2| == |coord| && ActiveBelow(stages, |coord|) && i < |d2|
    requires forall k :: 0 <= k < |stages| ==> stages[k].eaIndex != Some(i)
    ensures ChainD2(coord, d2, stages, pmult, m)[i] == d2[i]
    decreases |stages|
  {
    if stages != [] {
      var k := |stages| - 1;
      ChainD2Untouched(coord, d2, stages[..k], pmult, m, i);
    }
  }

  /** The entry of the last registered stage driven by an axis holds that
      stage's squared pivot distance, taken before its rotation. */
  lemma {:induction false} ChainD2Last(coord: seq<real>, d2: seq<real>, stages: seq<Stage>, pmult: real, m: Trig, j: nat)
    requires |coord| >= 3 && |d2| == |coord| && ActiveBelow(stages, |coord|)
    requires j < |stages| && stages[j].eaIndex.Some?
    requires forall k :: j < k < |stages| ==> stages[k].eaIndex != stages[j].eaIndex
    ensures ChainD2(coord, d2, stages, pmult, m)[stages[j].eaIndex.value]
         == PivotD2(ChainPos(coord, stages[..j], pmult, m), stages[j])
    decreases |stages|
  {
    var k := |stages| - 1;
    assert stages[..k][..j] == stages[..j] by { if j < k { } }
    if j < k {
      ChainD2Last(coord, d2, stages[..k], pmult, m, j);
    }
  }

  /** A chain whose stages are all unregistered changes nothing. */
  lemma {:induction false} ChainInactive(coord: seq<real>, d2: seq<real>, stages: seq<Stage>, pmult: real, m: Trig)
    requires |coord| >= 3 && |d2| == |coord|
    requires forall k :: 0 <= k < |stages| ==> stages[k].eaIndex.None?
    ensures ChainPos(coord, stages, pmult, m) == coord
    ensures ChainD2(coord, d2, stages, pmult, m) == d2
    decreases |stages|
  {
    if stages != [] {
      ChainInactive(coord, d2, stages[..|stages| - 1], pmult, m);
    }
  }

  /** Applying `[s] + rest` is applying `s` and then `rest`. */
  lemma {:induction false} ChainPosCons(coord: seq<real>, s: Stage, rest: seq<Stage>, pmult: real, m: Trig)
    requires |coord| >= 3 && ActiveBelow([s] + rest, |coord|)
    requires s.eaIndex.Some? ==> s.eaIndex.value < |coord|
    ensures ActiveBelow(rest, |coord|)
    ensures ChainPos(coord, [s] + rest, pmult, m) == ChainPos(StepPos(coord, s, pmult, m), rest, pmult, m)
    decreases |rest|
  {
    assert forall i :: 0 <= i < |rest| ==> rest[i] == ([s] + rest)[i + 1];
    if rest == [] {
      assert ([s] + rest)[..0] == [];
    } else {
      var k := |rest| - 1;
      assert ([s] + rest)[..|[s] + rest| - 1] == [s] + rest[..k];
      assert ActiveBelow([s] + rest[..k], |coord|) by {
        assert forall i :: 0 <= i < |[s] + rest[..k]| ==> ([s] + rest[..k])[i] == ([s] + rest)[i];
      }
      ChainPosCons(coord, s, rest[..k], pmult, m);
    }
  }

  function Reversed<T>(s: seq<T>): (r: seq<T>)
    ensures |r| == |s|
    ensures forall i :: 0 <= i < |s| ==> r[i] == s[|s| - 1 - i]
  {
    if s == [] then [] else [s[|s| - 1]] + Reversed(s[..|s| - 1])
  }

  lemma {:induction false} ActiveBelowReversed(stages: seq<Stage>, n: nat)
    requires ActiveBelow(stages, n)
    ensures ActiveBelow(Reversed(stages), n)
  {
    forall i | 0 <= i < |stages| && Reversed(stages)[i].eaIndex.Some?
      ensures Reversed(stages)[i].eaIndex.value < n
    {
      assert Reversed(stages)[i] == stages[|stages| - 1 - i];
    }
  }

  /** One more stage extends both chains by one step. */
  lemma {:induction false} ChainSnoc(coord: seq<real>, d2: seq<real>, stages: seq<Stage>, k: nat, p: real, m: Trig)
    requires |coord| >= 3 && |d2| == |coord| && k < |stages| && ActiveBelow(stages[..k + 1], |coord|)
    ensures ActiveBelow(stages[..k], |coord|)
    ensures stages[k].eaIndex.Some? ==> stages[k].eaIndex.value < |coord|
    ensures ChainPos(coord, stages[..k + 1], p, m) == StepPos(ChainPos(coord, stages[..k], p, m), stages[k], p, m)
    ensures ChainD2(coord, d2, stages[..k + 1], p, m)
         == StepD2(ChainPos(coord, stages[..k], p, m), ChainD2(coord, d2, stages[..k], p, m), stages[k])
  {
    assert stages[..k + 1][..k] == stages[..k];
    assert stages[..k + 1][k] == stages[k];
    assert forall i :: 0 <= i < k ==> stages[..k][i] == stages[..k + 1][i];
  }

  /** Splitting off the last stage of a chain. */
  lemma {:induction false} SplitLast(coord: seq<real>, stages: seq<Stage>, p: real, m: Trig)
    requires |coord| >= 3 && ActiveBelow(stages, |coord|) && ExtraAxesOnly(stages) && stages != []
    ensures var k := |stages| - 1;
            && ActiveBelow(stages[..k], |coord|) && ExtraAxesOnly(stages[..k])
            && (stages[k].eaIndex.Some? ==> 3 <= stages[k].eaIndex.value < |coord|)
            && Reversed(stages) == [stages[k]] + Reversed(stages[..k])
            && ChainPos(coord, stages, p, m) == StepPos(ChainPos(coord, stages[..k], p, m), stages[k], p, m)
  {
    var k := |stages| - 1;
    assert forall i :: 0 <= i < k ==> stages[..k][i] == stages[i];
  }

  /** The inductive step of the round trip, once the last stage is undone. */
  lemma {:induction false} RoundTripStep(coord: seq<real>, x: seq<real>, y: seq<real>, t: Stage, rf: seq<Stage>, p: real, m: Trig)
    requires |coord| >= 3 && |x| == |coord| && |y| == |coord|
    requires t.eaIndex.Some? ==> t.eaIndex.value < |coord|
    requires ActiveBelow(rf, |coord|) && ActiveBelow([t] + rf, |coord|)
    requires StepPos(x, t, -p, m) == y && ChainPos(y, rf, -p, m) == coord
    ensures ChainPos(x, [t] + rf, -p, m) == coord
  {
    ChainPosCons(x, t, rf, -p, m);
  }

  /** The chain applied forward and then backward, with the opposite angle
      multiplier, returns every coordinate to where it started. */
  lemma {:induction false} ChainRoundTrip(coord: seq<real>, stages: seq<Stage>, p: real, m: Trig)
    requires TrigLaws(m)
    requires |coord| >= 3 && ActiveBelow(stages, |coord|) && ExtraAxesOnly(stages)
    ensures ActiveBelow(Reversed(stages), |coord|)
    ensures ChainPos(ChainPos(coord, stages, p, m), Reversed(stages), -p, m) == coord
    decreases |stages|
  {
    ActiveBelowReversed(stages, |coord|);
    if stages != [] {
      var k := |stages| - 1;
      SplitLast(coord, stages, p, m);
      var y := ChainPos(coord, stages[..k], p, m);
      ChainRoundTrip(coord, stages[..k], p, m);
      StepInverse(y, stages[k], p, m);
      RoundTripStep(coord, StepPos(y, stages[k], p, m), y, stages[k], Reversed(stages[..k]), p, m);
    }
  }

  /** `pivot_coords` as a function: stages in order with the angle scaled
      by `axis_to_radians`, or in reverse order with the angle negated. */
  function PivotCoordsSpec(coord: seq<real>, stages: seq<Stage>, reverse: bool, a2r: real, m: Trig): (r: (seq<real>, seq<real>))
    requires |coord| >= 3 && ActiveBelow(stages, |coord|)
    ensures |r.0| == |coord| && |r.1| == |coord| && r.0[3..] == coord[3..]
  {
    ActiveBelowReversed(stages, |coord|);
    var ta := if reverse then Reversed(stages) else stages;
    var pmult := if reverse then -a2r else a2r;
    (ChainPos(coord, ta, pmult, m), ChainD2(coord, Zeros(|coord|), ta, pmult, m))
  }

  function Zeros(n: nat): (r: seq<real>)
    ensures |r| == n && forall i :: 0 <= i < n ==> r[i] == 0.0
  {
    seq(n, _ => 0.0)
  }

  /** The reverse transform (`get_position`) undoes the forward transform
      (`move`) whenever every stage is driven by an extra axis. */
  lemma {:induction false} PivotRoundTrip(coord: seq<real>, stages: seq<Stage>, a2r: real, m: Trig)
    requires TrigLaws(m)
    requires |coord| >= 3 && ActiveBelow(stages, |coord|) && ExtraAxesOnly(stages)
    ensures PivotCoordsSpec(PivotCoordsSpec(coord, stages, false, a2r, m).0, stages, true, a2r, m).0 == coord
  {
    ChainRoundTrip(coord, stages, a2r, m);
  }

  /** Index of the first occurrence of `x`, as `list.index` after an `in`
      test. */
  function IndexOf<T(==)>(xs: seq<T>, x: T): (r: Option<nat>)
    ensures r.None? <==> x !in xs
    ensures r.Some? ==> r.value < |xs| && xs[r.value] == x
    ensures r.Some? ==> forall j :: 0 <= j < r.value ==> xs[j] != x
  {
    if xs == [] then None
    else if xs[0] == x then Some(0)
    else
      var t := IndexOf(xs[1..], x);
      if t.None? then None else Some(t.value + 1)
  }

  /** The largest angular travel of the pivot point over the registered
      stages whose axis moves, as the travel loop of `move` computes it. */
  function AngularTravel(stages: seq<Stage>, newpos: seq<real>, lastPos: seq<real>,
                         lastD2: seq<real>, nextD2: seq<real>, a2r: real, m: Trig): (r: real)
    requires ActiveBelow(stages, |newpos|) && |lastPos| == |lastD2| == |nextD2| == |newpos|
    ensures r >= 0.0
    decreases |stages|
  {
    if stages == [] then 0.0
    else
      var k := |stages| - 1;
      var prev := AngularTravel(stages[..k], newpos, lastPos, lastD2, nextD2, a2r, m);
      var s := stages[k];
      if s.eaIndex.None? || newpos[s.eaIndex.value] == lastPos[s.eaIndex.value] then prev
      else
        var ea := s.eaIndex.value;
        var pdist := Sqrt(m, if lastD2[ea] >= nextD2[ea] then lastD2[ea] else nextD2[ea]);
        var at := PivotTravel(newpos[ea] - lastPos[ea], a2r, pdist);
        if prev >= at then prev else at
  }
  /** The travel is the largest stage travel: at least each stage's, and
      equal to one of them unless it is 0. */
  lemma {:induction false} AngularTravelIsMax(stages: seq<Stage>, newpos: seq<real>, lastPos: seq<real>,
                                              lastD2: seq<real>, nextD2: seq<real>, a2r: real, m: Trig)
    requires ActiveBelow(stages, |newpos|) && |lastPos| == |lastD2| == |nextD2| == |newpos|
    ensures var r := AngularTravel(stages, newpos, lastPos, lastD2, nextD2, a2r, m);
            && (forall j :: 0 <= j < |stages| ==> r >= StageTravel(stages[j], newpos, lastPos, lastD2, nextD2, a2r, m))
            && (r == 0.0 || exists j :: 0 <= j < |stages| && r == StageTravel(stages[j], newpos, lastPos, lastD2, nextD2, a2r, m))
    decreases |stages|
  {
    if stages != [] {
      var k := |stages| - 1;
      AngularTravelIsMax(stages[..k], newpos, lastPos, lastD2, nextD2, a2r, m);
      assert forall j :: 0 <= j < k ==> stages[..k][j] == stages[j];
    }
  }


  /** The angular travel of the pivot point for one stage: none for an
      unregistered stage or one whose axis does not move, otherwise the
      axis's change in radians times the larger pivot distance. */
  function StageTravel(s: Stage, newpos: seq<real>, lastPos: seq<real>,
                       lastD2: seq<real>, nextD2: seq<real>, a2r: real, m: Trig): real
    requires s.eaIndex.Some? ==> s.eaIndex.value < |newpos|
    requires |lastPos| == |lastD2| == |nextD2| == |newpos|
  {
    if s.eaIndex.None? || newpos[s.eaIndex.value] == lastPos[s.eaIndex.value] then 0.0
    else
      var ea := s.eaIndex.value;
      PivotTravel(newpos[ea] - lastPos[ea], a2r, Sqrt(m, if lastD2[ea] >= nextD2[ea] then lastD2[ea] else nextD2[ea]))
  }

  function Abs(x: real): real { if x < 0.0 then -x else x }

  /** The distance the pivot point travels when its axis moves by `delta`
      at `pdist` from the pivot. */
  function PivotTravel(delta: real, a2r: real, pdist: real): real
  {
    Abs(delta) * a2r * pdist
  }

  /** When no registered pivot axis changes, there is no angular travel. */
  lemma {:induction false} NoPivotMotionNoTravel(stages: seq<Stage>, newpos: seq<real>, lastPos: seq<real>,
                                                 lastD2: seq<real>, nextD2: seq<real>, a2r: real, m: Trig)
    requires ActiveBelow(stages, |newpos|) && |lastPos| == |lastD2| == |nextD2| == |newpos|
    requires forall k :: 0 <= k < |stages| && stages[k].eaIndex.Some? ==>
               newpos[stages[k].eaIndex.value] == lastPos[stages[k].eaIndex.value]
    ensures AngularTravel(stages, newpos, lastPos, lastD2, nextD2, a2r, m) == 0.0
    decreases |stages|
  {
    if stages != [] {
      NoPivotMotionNoTravel(stages[..|stages| - 1], newpos, lastPos, lastD2, nextD2, a2r, m);
    }
  }

  /** The i-th of n evenly spaced positions from `lastPos` to `newpos`
      (the lists are zipped, so the shorter length wins). */
  function Interpolated(lastPos: seq<real>, newpos: seq<real>, n: int, i: int): (r: seq<real>)
    requires n >= 1
    ensures |r| == if |lastPos| <= |newpos| then |lastPos| else |newpos|
  {
    var len := if |lastPos| <= |newpos| then |lastPos| else |newpos|;
    seq(len, j requires 0 <= j < len => Lerp(lastPos[j], newpos[j], n, i))
  }

  /** `lastpos + i * ((newpos - lastpos) * (1. / n))` for one coordinate. */
  function Lerp(a: real, b: real, n: int, i: int): real
    requires n >= 1
  {
    a + (i as real) * ((b - a) * (1.0 / (n as real)))
  }

  /** The n-th interpolated position is the target itself. */
  lemma {:induction false} InterpolatedEnd(lastPos: seq<real>, newpos: seq<real>, n: int)
    requires n >= 1 && |lastPos| == |newpos|
    ensures Interpolated(lastPos, newpos, n, n) == newpos
  {
    var r := Interpolated(lastPos, newpos, n, n);
    forall j | 0 <= j < |newpos| ensures r[j] == newpos[j] {
      LerpEnd(lastPos[j], newpos[j], n);
    }
  }

  lemma {:induction false} LerpEnd(a: real, b: real, n: int)
    requires n >= 1
    ensures Lerp(a, b, n, n) == b
  {
    var d := b - a;
    calc {
      (n as real) * (d * (1.0 / (n as real)));
      d * ((n as real) * (1.0 / (n as real)));
      d;
    }
  }

  /** The number of segments for a given angular travel:
      `int(math.ceil(travel * inv_resolution))`. */
  function Segments(travel: real, invResolution: real): (n: int)
    ensures (n as real) - 1.0 < travel * invResolution <= n as real
  {
    Ceil(travel * invResolution)
  }

  /** The moves handed to the next transform by `move`: for a travel of
      n >= 2 segments, the n - 1 intermediate positions transformed, then
      the transformed target; otherwise the transformed target only. */
  function ForwardedMoves(stages: seq<Stage>, lastPos: seq<real>, newpos: seq<real>, n: int,
                          speed: real, a2r: real, m: Trig): (r: seq<(seq<real>, real)>)
    requires |newpos| >= 3 && |lastPos| == |newpos| && ActiveBelow(stages, |newpos|)
    ensures |r| == (if n >= 2 then n else 1)
    ensures r[|r| - 1] == (PivotCoordsSpec(newpos, stages, false, a2r, m).0, speed)
  {
    (if n >= 2 then IntermediateMoves(stages, lastPos, newpos, n, n - 1, speed, a2r, m) else [])
    + [(PivotCoordsSpec(newpos, stages, false, a2r, m).0, speed)]
  }

  /** The first `count` intermediate moves of an n-segment move: move i
      goes to the transform of the position i/n of the way. */
  function IntermediateMoves(stages: seq<Stage>, lastPos: seq<real>, newpos: seq<real>, n: int, count: nat,
                             speed: real, a2r: real, m: Trig): (r: seq<(seq<real>, real)>)
    requires n >= 1 && |newpos| >= 3 && |lastPos| == |newpos| && ActiveBelow(stages, |newpos|)
    ensures |r| == count
  {
    seq(count, i requires 0 <= i < count =>
      (PivotCoordsSpec(Interpolated(lastPos, newpos, n, i + 1), stages, false, a2r, m).0, speed))
  }

  lemma {:induction false} IntermediateMovesSnoc(stages: seq<Stage>, lastPos: seq<real>, newpos: seq<real>, n: int, count: nat,
                              speed: real, a2r: real, m: Trig)
    requires n >= 1 && |newpos| >= 3 && |lastPos| == |newpos| && ActiveBelow(stages, |newpos|) && count >= 1
    ensures IntermediateMoves(stages, lastPos, newpos, n, count, speed, a2r, m)
         == IntermediateMoves(stages, lastPos, newpos, n, count - 1, speed, a2r, m)
            + [(PivotCoordsSpec(Interpolated(lastPos, newpos, n, count), stages, false, a2r, m).0, speed)]
  {
  }

  /** Every forwarded move but the last lies on the straight line from the
      last position to the target, i/n of the way, before transformation;
      the last is the target itself (`InterpolatedEnd`). */
  lemma {:induction false} ForwardedMovesOnLine(stages: seq<Stage>, lastPos: seq<real>, newpos: seq<real>, n: int,
                             speed: real, a2r: real, m: Trig, i: int)
    requires |newpos| >= 3 && |lastPos| == |newpos| && ActiveBelow(stages, |newpos|)
    requires n >= 2 && 1 <= i <= n
    ensures ForwardedMoves(stages, lastPos, newpos, n, speed, a2r, m)[i - 1]
         == (PivotCoordsSpec(Interpolated(lastPos, newpos, n, i), stages, false, a2r, m).0, speed)
  {
    var inter := IntermediateMoves(stages, lastPos, newpos, n, n - 1, speed, a2r, m);
    var last := (PivotCoordsSpec(newpos, stages, false, a2r, m).0, speed);
    assert ForwardedMoves(stages, lastPos, newpos, n, speed, a2r, m) == inter + [last];
    if i == n {
      InterpolatedEnd(lastPos, newpos, n);
      assert (inter + [last])[i - 1] == last;
    } else {
      assert (inter + [last])[i - 1] == inter[i - 1];
    }
  }

  /** The transform behind this one (normally the toolhead): it records the
      moves it is given and reports the last one as its position. */
  class MoveTransform {
    var moves: seq<(seq<real>, real)>
    var position: seq<real>

    constructor (position: seq<real>)
      ensures moves == [] && this.position == position
    {
      moves := [];
      this.position := position;
    }

    method Move(newpos: seq<real>, speed: real)
      modifies this
      ensures moves == old(moves) + [(newpos, speed)] && position == newpos
    {
      moves := moves + [(newpos, speed)];
      position := newpos;
    }
  }

  /** Which transform the G-code move module sends moves through. */
  datatype Installed = PivotInstalled | Other(t: MoveTransform)

  class GCodeMove {
    var installed: Installed
    /** The G-code position last taken from the installed transform. */
    var lastPosition: seq<real>

    constructor (t: MoveTransform)
      ensures installed == Other(t) && lastPosition == t.position
    {
      installed := Other(t);
      lastPosition := t.position;
    }

    /** `set_move_transform(..., force=True)`: install and return the
        previous transform. */
    method SetMoveTransform(x: Installed) returns (prev: Installed)
      modifies this`installed
      ensures installed == x && prev == old(installed)
    {
      prev := installed;
      installed := x;
    }

    /** `reset_last_position`, given what the installed transform's
        `get_position` returned. */
    method ResetLastPosition(pos: seq<real>)
      modifies this`lastPosition
      ensures lastPosition == pos
    {
      lastPosition := pos;
    }
  }

  class PivotCoordObj {
    var stages: seq<Stage>
    const invResolution: real
    const axisToRadians: real
    const trig: Trig
    var lastPos: seq<real>
    var lastPivotsD2: seq<real>
    var nextTransform: Option<MoveTransform>
    const gcodeMove: GCodeMove

    /** This object is installed in the G-code move module exactly while it
        holds the transform it displaced. */
    predicate Valid()
      reads this, gcodeMove
    {
      nextTransform.None? <==> gcodeMove.installed.Other?
    }

    constructor (controls: seq<(string, Axis, (real, real, real))>, resolution: real,
                 fullRotation: real, trig: Trig, gcodeMove: GCodeMove)
      requires |controls| <= 99 && resolution != 0.0 && fullRotation != 0.0
      requires gcodeMove.installed.Other?
      ensures |stages| == |controls|
      ensures forall i :: 0 <= i < |controls| ==>
                stages[i] == Stage(controls[i].0, controls[i].1, controls[i].2, None)
      ensures invResolution == 1.0 / resolution && axisToRadians == 2.0 * trig.pi / fullRotation
      ensures lastPos == [] && lastPivotsD2 == [] && nextTransform == None
      ensures this.trig == trig && this.gcodeMove == gcodeMove
      ensures Valid()
    {
      invResolution := 1.0 / resolution;
      axisToRadians := 2.0 * trig.pi / fullRotation;
      this.trig := trig;
      this.gcodeMove := gcodeMove;
      lastPos := [];
      lastPivotsD2 := [];
      nextTransform := None;
      stages := seq(|controls|, i requires 0 <= i < |controls| => Stage(controls[i].0, controls[i].1, controls[i].2, None));
    }

    /** `_update_extra_axes`: each stage's index becomes the position of its
        controlling object in the toolhead's axis list, or None. */
    method UpdateExtraAxes(extraAxes: seq<Option<string>>)
      modifies this`stages
      ensures |stages| == |old(stages)|
      ensures forall i :: 0 <= i < |stages| ==>
                stages[i] == old(stages[i]).(eaIndex := IndexOf(extraAxes, Some(old(stages[i]).control)))
      ensures ActiveBelow(stages, |extraAxes|)
      ensures (forall j :: 0 <= j < 3 && j < |extraAxes| ==> extraAxes[j].None?) ==> ExtraAxesOnly(stages)
    {
      for i := 0 to |stages|
        invariant |stages| == |old(stages)|
        invariant forall k :: 0 <= k < i ==>
                    stages[k] == old(stages[k]).(eaIndex := IndexOf(extraAxes, Some(old(stages[k]).control)))
        invariant forall k :: i <= k < |stages| ==> stages[k] == old(stages[k])
      {
        var idx := IndexOf(extraAxes, Some(stages[i].control));
        stages := stages[i := stages[i].(eaIndex := idx)];
      }
    }

    /** `pivot_coords`: a loop over the stages (reversed, with negated
        angle, for `reverse`), rewriting x/y/z and recording the squared
        pivot distance of each registered stage. */
    method PivotCoords(coord: seq<real>, reverse: bool) returns (out: seq<real>, d2: seq<real>)
      requires |coord| >= 3 && ActiveBelow(stages, |coord|)
      ensures (out, d2) == PivotCoordsSpec(coord, stages, reverse, axisToRadians, trig)
    {
      ActiveBelowReversed(stages, |coord|);
      var ta := if reverse then Reversed(stages) else stages;
      var pmult := if reverse then -axisToRadians else axisToRadians;
      out, d2 := RunChain(coord, ta, pmult);
    }

    /** The stage loop of `pivot_coords`, over the stages in the order given. */
    method RunChain(coord: seq<real>, ta: seq<Stage>, pmult: real) returns (out: seq<real>, d2: seq<real>)
      requires |coord| >= 3 && ActiveBelow(ta, |coord|)
      ensures out == ChainPos(coord, ta, pmult, trig) && d2 == ChainD2(coord, Zeros(|coord|), ta, pmult, trig)
    {
      out := coord;
      d2 := Zeros(|coord|);
      var i := 0;
      while i < |ta|
        invariant 0 <= i <= |ta|
        invariant ActiveBelow(ta[..i], |coord|)
        invariant out == ChainPos(coord, ta[..i], pmult, trig)
        invariant d2 == ChainD2(coord, Zeros(|coord|), ta[..i], pmult, trig)
      {
        var s := ta[i];
        ChainSnoc(coord, Zeros(|coord|), ta, i, pmult, trig);
        if s.eaIndex.Some? {
          d2 := StepD2(out, d2, s);
          out := StepPos(out, s, pmult, trig);
        }
        i := i + 1;
      }
      assert ta[..|ta|] == ta;
    }

    /** `get_position`: the next transform's position run through the
        reverse chain; it also becomes the last position. */
    method GetPosition() returns (pos: seq<real>)
      requires nextTransform.Some?
      requires |nextTransform.value.position| >= 3
      requires ActiveBelow(stages, |nextTransform.value.position|)
      modifies this`lastPos, this`lastPivotsD2
      ensures var r := PivotCoordsSpec(nextTransform.value.position, stages, true, axisToRadians, trig);
              pos == r.0 && lastPos == r.0 && lastPivotsD2 == r.1
    {
      var coord := nextTransform.value.position;
      var d2;
      pos, d2 := PivotCoords(coord, true);
      lastPos := pos;
      lastPivotsD2 := d2;
    }

    /** The travel loop of `move`: the largest angular travel over the
        registered stages whose axis changes. */
    method MaxAngularTravel(newpos: seq<real>, nextD2: seq<real>) returns (travel: real)
      requires ActiveBelow(stages, |newpos|)
      requires |lastPos| == |lastPivotsD2| == |nextD2| == |newpos|
      ensures travel == AngularTravel(stages, newpos, lastPos, lastPivotsD2, nextD2, axisToRadians, trig)
    {
      travel := 0.0;
      var i := 0;
      while i < |stages|
        invariant 0 <= i <= |stages|
        invariant travel == AngularTravel(stages[..i], newpos, lastPos, lastPivotsD2, nextD2, axisToRadians, trig)
      {
        assert stages[..i + 1][..i] == stages[..i];
        var s := stages[i];
        if s.eaIndex.Some? && newpos[s.eaIndex.value] != lastPos[s.eaIndex.value] {
          var ea := s.eaIndex.value;
          var pdist := Sqrt(trig, if lastPivotsD2[ea] >= nextD2[ea] then lastPivotsD2[ea] else nextD2[ea]);
          var at := PivotTravel(newpos[ea] - lastPos[ea], axisToRadians, pdist);
          travel := if travel >= at then travel else at;
        }
        i := i + 1;
      }
      assert stages[..|stages|] == stages;
    }

    /** The segment loop of `move`: forward the transformed positions
        1/n, 2/n, ..., (n-1)/n of the way to the target. */
    method SendIntermediate(next: MoveTransform, newpos: seq<real>, segments: int, speed: real)
      requires segments >= 2 && |newpos| >= 3 && |lastPos| == |newpos| && ActiveBelow(stages, |newpos|)
      modifies next
      ensures next.moves == old(next.moves)
        + IntermediateMoves(stages, lastPos, newpos, segments, segments - 1, speed, axisToRadians, trig)
    {
      for j := 1 to segments
        invariant next.moves == old(next.moves)
          + IntermediateMoves(stages, lastPos, newpos, segments, j - 1, speed, axisToRadians, trig)
      {
        var spos := Interpolated(lastPos, newpos, segments, j);
        var npos, pd2 := PivotCoords(spos, false);
        next.Move(npos, speed);
        IntermediateMovesSnoc(stages, lastPos, newpos, segments, j, speed, axisToRadians, trig);
      }
    }

    /** `move`: transform the target, split the move into
        ceil(angular travel / resolution) segments when that is 2 or more,
        forward the transformed intermediate positions and then the target. */
    method Move(newpos: seq<real>, speed: real)
      requires nextTransform.Some?
      requires |newpos| >= 3 && ActiveBelow(stages, |newpos|)
      requires |lastPos| == |newpos| && |lastPivotsD2| == |newpos|
      modifies this`lastPos, this`lastPivotsD2, nextTransform.value
      ensures lastPos == newpos && lastPivotsD2 == PivotCoordsSpec(newpos, stages, false, axisToRadians, trig).1
      ensures nextTransform.value.position == PivotCoordsSpec(newpos, stages, false, axisToRadians, trig).0
      ensures nextTransform.value.moves == old(nextTransform.value.moves)
                + ForwardedMoves(stages, old(lastPos), newpos,
                                 Segments(AngularTravel(stages, newpos, old(lastPos), old(lastPivotsD2), lastPivotsD2, axisToRadians, trig), invResolution),
                                 speed, axisToRadians, trig)
    {
      var nextPos, nextD2 := PivotCoords(newpos, false);
      var travel := MaxAngularTravel(newpos, nextD2);
      var segments := Segments(travel, invResolution);
      var next := nextTransform.value;
      ghost var inter := if segments >= 2
        then IntermediateMoves(stages, lastPos, newpos, segments, segments - 1, speed, axisToRadians, trig)
        else [];
      assert ForwardedMoves(stages, lastPos, newpos, segments, speed, axisToRadians, trig) == inter + [(nextPos, speed)];
      if segments >= 2 {
        SendIntermediate(next, newpos, segments, speed);
      }
      assert next.moves == old(next.moves) + inter;
      next.Move(nextPos, speed);
      assert next.moves == old(next.moves) + (inter + [(nextPos, speed)]);
      lastPos := newpos;
      lastPivotsD2 := nextD2;
    }

    /** The displaced transform's position covers x, y, z and the axis of
        every registered stage, as the toolhead's position does. */
    predicate CoversStages(t: MoveTransform)
      reads this, t
    {
      |t.position| >= 3 && ActiveBelow(stages, |t.position|)
    }

    /** `_activate`: install this transform, keeping the displaced one as the
        next transform, and reset the G-code position, which reads this
        transform's `get_position` and so refreshes the last position and
        pivot distances from the displaced transform's position. */
    method Activate()
      requires Valid() && nextTransform.None? && CoversStages(gcodeMove.installed.t)
      modifies this`nextTransform, this`lastPos, this`lastPivotsD2, gcodeMove
      ensures Valid() && gcodeMove.installed == PivotInstalled
      ensures nextTransform == Some(old(gcodeMove.installed).t)
      ensures var r := PivotCoordsSpec(old(gcodeMove.installed).t.position, stages, true, axisToRadians, trig);
              lastPos == r.0 && lastPivotsD2 == r.1 && gcodeMove.lastPosition == r.0
    {
      var prev := gcodeMove.SetMoveTransform(PivotInstalled);
      nextTransform := Some(prev.t);
      var pos := GetPosition();
      gcodeMove.ResetLastPosition(pos);
    }

    /** `_deactivate`: reinstall the displaced transform; a no-op when not
        active. */
    method Deactivate()
      requires Valid()
      modifies this`nextTransform, gcodeMove`installed
      ensures Valid() && nextTransform.None?
      ensures old(nextTransform).None? ==> gcodeMove.installed == old(gcodeMove.installed)
      ensures old(nextTransform).Some? ==> gcodeMove.installed == Other(old(nextTransform).value)
    {
      if nextTransform.None? {
        return;
      }
      var prev := gcodeMove.SetMoveTransform(Other(nextTransform.value));
      nextTransform := None;
    }

    /** `cmd_PIVOT_COORD`: ACTIVATE is required; activating twice is an
        error, deactivating twice is harmless. */
    method Cmd(activate: Option<int>) returns (err: Option<string>)
      requires Valid()
      requires gcodeMove.installed.Other? ==> CoversStages(gcodeMove.installed.t)
      modifies this`nextTransform, this`lastPos, this`lastPivotsD2, gcodeMove
      ensures Valid()
      // The errors change nothing.
      ensures activate.None? ==> err == Some("Error on 'PIVOT_COORD': missing ACTIVATE")
      ensures activate.Some? && activate.value != 0 && old(nextTransform).Some? ==>
                err == Some("PIVOT_COORD already activated")
      ensures activate.None? || (activate.value != 0 && old(nextTransform).Some?) ==>
                nextTransform == old(nextTransform) && lastPos == old(lastPos) && lastPivotsD2 == old(lastPivotsD2)
                && gcodeMove.installed == old(gcodeMove.installed) && gcodeMove.lastPosition == old(gcodeMove.lastPosition)
      // Activation is `Activate`.
      ensures activate.Some? && activate.value != 0 && old(nextTransform).None? ==>
                var r := PivotCoordsSpec(old(gcodeMove.installed).t.position, stages, true, axisToRadians, trig);
                err.None? && gcodeMove.installed == PivotInstalled && nextTransform == Some(old(gcodeMove.installed).t)
                && lastPos == gcodeMove.lastPosition == r.0 && lastPivotsD2 == r.1
      // ACTIVATE=0 is `Deactivate`: the displaced transform comes back.
      ensures activate.Some? && activate.value == 0 ==>
                err.None? && nextTransform.None?
                && gcodeMove.installed == (if old(nextTransform).Some? then Other(old(nextTransform).value)
                                           else old(gcodeMove.installed))
                && lastPos == old(lastPos) && lastPivotsD2 == old(lastPivotsD2)
                && gcodeMove.lastPosition == old(gcodeMove.lastPosition)
    {
      if activate.None? {
        return Some("Error on 'PIVOT_COORD': missing ACTIVATE");
      }
      if activate.value != 0 {
        if nextTransform.Some? {
          return Some("PIVOT_COORD already activated");
        }
        Activate();
        return None;
      }
      Deactivate();
      return None;
    }
  }
}
