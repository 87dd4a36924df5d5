/** The part of a printer rail that the kinematics wire together: its
    steppers, its first endstop (the one `get_endstops()[0][0]` returns) and
    the step-generation kernel chosen by `setup_itersolve`. */
module Rails {

  /** Toolhead cartesian coordinates, the value `calc_position` returns. */
  datatype Coord = Coord(x: real, y: real, z: real)

  /** The iterative-solver kernel a rail is set up with, and the byte
      argument passed to it (`b'+'`, `b'-'`, `b'x'` ...). */
  datatype Allocator =
    | Unset
    | CoreXYAlloc(sign: char)
    | CoreXZAlloc(sign: char)
    | CartesianAlloc(axis: char)

  /** An endstop and the steppers that stop when it triggers. */
  class Endstop {
    var steppers: seq<string>

    constructor (initial: seq<string>)
      ensures steppers == initial
    {
      steppers := initial;
    }

    /** `add_stepper`: one more stepper stops on this endstop. */
    method AddStepper(s: string)
      modifies this
      ensures steppers == old(steppers) + [s]
    {
      steppers := steppers + [s];
    }

    /** The `for s in rail.get_steppers(): endstop.add_stepper(s)` loop
        of the kinematics constructors. */
    method AddSteppers(ss: seq<string>)
      modifies this
      ensures steppers == old(steppers) + ss
    {
      for i := 0 to |ss|
        invariant steppers == old(steppers) + ss[..i]
      {
        AddStepper(ss[i]);
        assert ss[..i + 1] == ss[..i] + [ss[i]];
      }
      assert ss[..|ss|] == ss;
    }
  }

  class Rail {
    const name: string
    const steppers: seq<string>
    const endstop: Endstop
    var allocator: Allocator

    constructor (name: string, steppers: seq<string>, endstop: Endstop)
      ensures this.name == name && this.steppers == steppers
      ensures this.endstop == endstop && allocator == Unset
    {
      this.name := name;
      this.steppers := steppers;
      this.endstop := endstop;
      allocator := Unset;
    }

    method SetupItersolve(a: Allocator)
      modifies this
      ensures allocator == a
    {
      allocator := a;
    }
  }

  /** Operating mode of one carriage of a dual-carriage axis, as the
      dual-carriage module reports it in its status ('PRIMARY', ...). */
  datatype CarriageMode = Primary | Inactive | Copy | Mirror

  /** The dual-carriage module of an IDEX machine, seen only through its
      status; switching carriages happens outside the kinematics. */
  class DualCarriages {
    var carriage0: CarriageMode
    var carriage1: CarriageMode

    /** Carriage 0 starts active, carriage 1 inactive. */
    constructor (active0: bool, active1: bool)
      ensures carriage0 == (if active0 then Primary else Inactive)
      ensures carriage1 == (if active1 then Primary else Inactive)
    {
      carriage0 := if active0 then Primary else Inactive;
      carriage1 := if active1 then Primary else Inactive;
    }
  }
}
