/** CoreXZ kinematics: two belts drive X and Z jointly, Y is independent. */
module CoreXZ {
  import opened Wrappers
  import opened Rails

  /** Where the '+' and '-' corexz kernels put stepper_x and stepper_z for a
      toolhead position (x + z and x - z); stepper_y follows y. */
  function StepperPositions(c: Coord): (real, real, real)
  {
    (c.x + c.z, c.y, c.x - c.z)
  }

  /** The forward map of `calc_position` on the stepper_x (a), stepper_y (b)
      and stepper_z (c) rail positions. It undoes the kernels' map. */
  function Forward(a: real, b: real, c: real): (r: Coord)
    ensures StepperPositions(r) == (a, b, c)
  {
    Coord(0.5 * (a + c), b, 0.5 * (a - c))
  }

  /** Going from the toolhead to the rails and back is the identity. */
  lemma {:induction false} ForwardOfStepperPositions(c: Coord)
    ensures var p := StepperPositions(c); Forward(p.0, p.1, p.2) == c
  {
  }

  class CoreXZKinematics {
    const railX: Rail
    const railY: Rail
    const railZ: Rail

    /** Each of X and Z homes on the other's steppers too: every stepper_x
        stepper is added to the Z endstop, then every stepper_z stepper to
        the X endstop; then the kernels are chosen. */
    constructor (x: Rail, y: Rail, z: Rail)
      requires x != y && y != z && x != z
      modifies x, y, z, x.endstop, z.endstop
      ensures railX == x && railY == y && railZ == z
      ensures x.endstop != z.endstop ==>
        && z.endstop.steppers == old(z.endstop.steppers) + x.steppers
        && x.endstop.steppers == old(x.endstop.steppers) + z.steppers
      ensures x.endstop == z.endstop ==>
        x.endstop.steppers == old(x.endstop.steppers) + x.steppers + z.steppers
      ensures x.allocator == CoreXZAlloc('+') && z.allocator == CoreXZAlloc('-')
      ensures y.allocator == CartesianAlloc('y')
    {
      railX, railY, railZ := x, y, z;
      new;
      z.endstop.AddSteppers(x.steppers);
      x.endstop.AddSteppers(z.steppers);
      x.SetupItersolve(CoreXZAlloc('+'));
      y.SetupItersolve(CartesianAlloc('y'));
      z.SetupItersolve(CoreXZAlloc('-'));
    }

    /** The rails in x, y, z order, and no dual-carriage module. */
    function GetRails(): (r: (seq<Rail>, Option<DualCarriages>))
      ensures |r.0| == 3 && r.0[0] == railX && r.0[1] == railY && r.0[2] == railZ
      ensures r.1 == None
    {
      ([railX, railY, railZ], None)
    }

    /** `calc_position`: the toolhead position whose stepper positions are the
        ones given for the three rails. */
    function CalcPosition(positions: map<string, real>): (c: Coord)
      requires railX.name in positions && railY.name in positions && railZ.name in positions
      ensures StepperPositions(c) == (positions[railX.name], positions[railY.name], positions[railZ.name])
    {
      Forward(positions[railX.name], positions[railY.name], positions[railZ.name])
    }
  }
}
