/** Hybrid-CoreXY (Markforged) kinematics: the X carriage belt is coupled
    with Y, and an optional second (dual) carriage shares the Y endstop. */
module HybridCoreXY {
  import opened Wrappers
  import opened Rails

  /** Rail positions while carriage 0 carries the tool: the '-' corexy kernel
      puts stepper_x at x - y; stepper_y and stepper_z follow y and z. */
  function Carriage0Positions(c: Coord): (real, real, real)
  {
    (c.x - c.y, c.y, c.z)
  }

  /** Rail positions while the dual carriage carries the tool: the '+'
      kernel puts the dual-carriage stepper at x + y. */
  function Carriage1Positions(c: Coord): (real, real, real)
  {
    (c.x + c.y, c.y, c.z)
  }

  /** The forward map with carriage 0 active, from the X, Y, Z rails. */
  function ForwardCarriage0(x: real, y: real, z: real): (c: Coord)
    ensures Carriage0Positions(c) == (x, y, z)
  {
    Coord(x + y, y, z)
  }

  /** The forward map with the dual carriage primary, from the dual-carriage,
      Y and Z rails. */
  function ForwardCarriage1(dc: real, y: real, z: real): (c: Coord)
    ensures Carriage1Positions(c) == (dc, y, z)
  {
    Coord(dc - y, y, z)
  }

  class HybridCoreXYKinematics {
    const railX: Rail
    const railY: Rail
    const railZ: Rail
    /** The fourth rail and the dual-carriage module, present together
        exactly when a dual_carriage section is configured. */
    const dual: Option<(Rail, DualCarriages)>

    /** The X rail's first stepper stops on the Y endstop, and so does the
        dual carriage's first stepper when there is one; the original
        carriage starts active and the dual carriage inactive. */
    constructor (x: Rail, y: Rail, z: Rail, dc: Option<Rail>)
      requires |x.steppers| >= 1
      requires dc.Some? ==> |dc.value.steppers| >= 1
      requires x != y && y != z && x != z
      requires dc.Some? ==> dc.value != x && dc.value != y && dc.value != z
      modifies x, y, z, y.endstop, if dc.Some? then {dc.value} else {}
      ensures railX == x && railY == y && railZ == z
      ensures dc.None? <==> dual.None?
      ensures dc.Some? ==> dual.value.0 == dc.value
      ensures y.endstop.steppers ==
        old(y.endstop.steppers) + [x.steppers[0]] + (if dc.Some? then [dc.value.steppers[0]] else [])
      ensures x.allocator == CoreXYAlloc('-') && y.allocator == CartesianAlloc('y')
      ensures z.allocator == CartesianAlloc('z')
      ensures dc.Some? ==> dc.value.allocator == CoreXYAlloc('+')
      ensures dual.Some? ==> fresh(dual.value.1)
      ensures dual.Some? ==> dual.value.1.carriage0 == Primary && dual.value.1.carriage1 == Inactive
    {
      railX, railY, railZ := x, y, z;
      if dc.Some? {
        var carriages := new DualCarriages(true, false);
        dual := Some((dc.value, carriages));
      } else {
        dual := None;
      }
      new;
      y.endstop.AddStepper(x.steppers[0]);
      x.SetupItersolve(CoreXYAlloc('-'));
      y.SetupItersolve(CartesianAlloc('y'));
      z.SetupItersolve(CartesianAlloc('z'));
      if dc.Some? {
        y.endstop.AddStepper(dc.value.steppers[0]);
        dc.value.SetupItersolve(CoreXYAlloc('+'));
      }
    }

    /** The rails in x, y, z order followed by the dual-carriage rail, and
        the dual-carriage module, if configured. */
    function GetRails(): (r: (seq<Rail>, Option<DualCarriages>))
      ensures |r.0| >= 3 && r.0[..3] == [railX, railY, railZ]
      ensures dual.None? ==> |r.0| == 3 && r.1 == None
      ensures dual.Some? ==> |r.0| == 4 && r.0[3] == dual.value.0 && r.1 == Some(dual.value.1)
    {
      match dual
      case None => ([railX, railY, railZ], None)
      case Some((rail, carriages)) => ([railX, railY, railZ, rail], Some(carriages))
    }

    /** Whether the dual carriage is the one carrying the tool. */
    predicate DualIsPrimary()
      reads if dual.Some? then {dual.value.1} else {}
    {
      dual.Some? && dual.value.1.carriage1 == Primary
    }

    /** `calc_position`: the toolhead position whose rail positions are the
        given ones, for whichever carriage is active. */
    function CalcPosition(positions: map<string, real>): (c: Coord)
      reads if dual.Some? then {dual.value.1} else {}
      requires railX.name in positions && railY.name in positions && railZ.name in positions
      requires dual.Some? ==> dual.value.0.name in positions
      ensures DualIsPrimary() ==>
        Carriage1Positions(c) == (positions[dual.value.0.name], positions[railY.name], positions[railZ.name])
      ensures !DualIsPrimary() ==>
        Carriage0Positions(c) == (positions[railX.name], positions[railY.name], positions[railZ.name])
    {
      if DualIsPrimary() then
        ForwardCarriage1(positions[dual.value.0.name], positions[railY.name], positions[railZ.name])
      else
        ForwardCarriage0(positions[railX.name], positions[railY.name], positions[railZ.name])
    }
  }

  /** At a handoff where the active carriage's and the other carriage's rails
      describe the same physical X, both branches of the forward map agree. */
  lemma {:induction false} HandoffAgrees(x: real, dc: real, y: real, z: real)
    requires x + y == dc - y
    ensures ForwardCarriage0(x, y, z) == ForwardCarriage1(dc, y, z)
  {
  }
}
