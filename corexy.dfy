/** CoreXY kinematics: two belts drive X and Y jointly, Z is independent. */
module CoreXY {
  import opened Wrappers
  import opened Rails

  /** Where the '+' and '-' corexy kernels put stepper_x and stepper_y for a
      toolhead position (x + y and x - y); stepper_z follows z. */
  function StepperPositions(c: Coord): (real, real, real)
  {
    (c.x + c.y, c.x - c.y, c.z)
  }

  /** The forward map of `calc_position` on the stepper_x (a), stepper_y (b)
      and stepper_z rail positions. It undoes the kernels' map. */
  function Forward(a: real, b: real, z: real): (c: Coord)
    ensures StepperPositions(c) == (a, b, z)
  {
    Coord(0.5 * (a + b), 0.5 * (a - b), z)
  }

  /** Going from the toolhead to the rails and back is the identity. */
  lemma {:induction false} ForwardOfStepperPositions(c: Coord)
    ensures var p := StepperPositions(c); Forward(p.0, p.1, p.2) == c
  {
  }

  class CoreXYKinematics {
    const railX: Rail
    const railY: Rail
    const railZ: Rail

    /** Each of X and Y homes on the other's steppers too: every stepper_y
        stepper is added to the X endstop, then every stepper_x stepper to
        the Y endstop; then the kernels are chosen. */
    constructor (x: Rail, y: Rail, z: Rail)
      requires x != y && y != z && x != z
      modifies x, y, z, x.endstop, y.endstop
      ensures railX == x && railY == y && railZ == z
      ensures x.endstop != y.endstop ==>
        && x.endstop.steppers == old(x.endstop.steppers) + y.steppers
        && y.endstop.steppers == old(y.endstop.steppers) + x.steppers
      ensures x.endstop == y.endstop ==>
        x.endstop.steppers == old(x.endstop.steppers) + y.steppers + x.steppers
      ensures x.allocator == CoreXYAlloc('+') && y.allocator == CoreXYAlloc('-')
      ensures z.allocator == CartesianAlloc('z')
    {
      railX, railY, railZ := x, y, z;
      new;
      x.endstop.AddSteppers(y.steppers);
      y.endstop.AddSteppers(x.steppers);
      x.SetupItersolve(CoreXYAlloc('+'));
      y.SetupItersolve(CoreXYAlloc('-'));
      z.SetupItersolve(CartesianAlloc('z'));
    }

    /** The rails in x, y, z order, and no dual-carriage module. */
    function GetRails(): (r: (seq<Rail>, Option<DualCarriages>))
      ensures |r.0| == 3 && r.0[0] == railX && r.0[1] == railY && r.0[2] == railZ
      ensures r.1 == None
    {
      ([railX, railY, railZ], None)
    }

    /** `calc_position`: the toolhead position whose stepper positions are the
        ones given for the three rails. */
    function CalcPosition(positions: map<string, real>): (c: Coord)
      requires railX.name in positions && railY.name in positions && railZ.name in positions
      ensures StepperPositions(c) == (positions[railX.name], positions[railY.name], positions[railZ.name])
    {
      Forward(positions[railX.name], positions[railY.name], positions[railZ.name])
    }
  }
}
