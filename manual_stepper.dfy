/** A stepper under direct G-code control (MANUAL_STEPPER): a private
    virtual clock `next_cmd_time` kept in step with the toolhead, trapezoid
    segments appended to its own motion queue, optional homing, and optional
    registration as an extra G-code axis of the toolhead. */
module ManualStepper {
  import opened Wrappers

  function Max(a: real, b: real): (m: real)
    ensures m >= a && m >= b && (m == a || m == b)
  {
    if a >= b then a else b
  }

  /** One trapezoid as `trapq_append` receives it, reduced to the first
      axis: every segment this module appends has zero y/z start position
      and zero y/z direction components. */
  datatype Segment = Segment(
    printTime: real,
    accelT: real, cruiseT: real, decelT: real,
    startPos: real, axisR: real,
    startV: real, cruiseV: real, accel: real)

  /** Distance travelled along the segment's direction: accelerate from
      start_v to cruise_v, cruise, then decelerate. */
  function SegmentDistance(s: Segment): real
  {
    s.startV * s.accelT + 0.5 * s.accel * s.accelT * s.accelT
    + s.cruiseV * s.cruiseT
    + s.cruiseV * s.decelT - 0.5 * s.accel * s.decelT * s.decelT
  }

  /** Position on the first axis once the segment is complete. */
  function SegmentEnd(s: Segment): real
  {
    s.startPos + s.axisR * SegmentDistance(s)
  }

  function SegmentDuration(s: Segment): real
  {
    s.accelT + s.cruiseT + s.decelT
  }

  /** What `force_move.calc_move_time(dist, speed, accel)` returns. */
  datatype MoveTimes = MoveTimes(axisR: real, accelT: real, cruiseT: real, cruiseV: real)

  /** For a positive speed and a non-negative acceleration, the phase
      durations `calc_move_time` reports are never negative (a negative
      speed gives a negative cruise time). */
  ghost predicate NonNegativeTimes(moveTime: (real, real, real) -> MoveTimes)
  {
    forall d, v, a :: v > 0.0 && a >= 0.0 ==>
      moveTime(d, v, a).accelT >= 0.0 && moveTime(d, v, a).cruiseT >= 0.0
  }

  /** `calc_move_time` covers `dist`: direction times cruise speed times
      (accel_t + cruise_t) is the requested distance. */
  predicate CoversDistance(mt: MoveTimes, dist: real)
  {
    mt.axisR * (mt.cruiseV * (mt.accelT + mt.cruiseT)) == dist
  }

  /** The symmetric trapezoid `do_move` queues: starting at rest at the
      commanded position, decelerating for as long as it accelerated. */
  function MoveSegment(t: real, cp: real, mt: MoveTimes, accel: real): (s: Segment)
    ensures s.printTime == t && s.startPos == cp && s.startV == 0.0
    ensures s.decelT == s.accelT == mt.accelT && s.cruiseT == mt.cruiseT
    ensures s.axisR == mt.axisR && s.cruiseV == mt.cruiseV && s.accel == accel
  {
    Segment(t, mt.accelT, mt.cruiseT, mt.accelT, cp, mt.axisR, 0.0, mt.cruiseV, accel)
  }

  /** A `do_move` segment ends exactly at the requested position whenever
      `calc_move_time` covered the requested distance: the acceleration and
      deceleration terms cancel, whatever the acceleration. */
  lemma {:induction false} MoveSegmentReachesTarget(t: real, cp: real, movepos: real, mt: MoveTimes, accel: real)
    requires CoversDistance(mt, movepos - cp)
    ensures SegmentEnd(MoveSegment(t, cp, mt, accel)) == movepos
  {
    var s := MoveSegment(t, cp, mt, accel);
    calc {
      SegmentDistance(s);
      0.0 * mt.accelT + 0.5 * accel * mt.accelT * mt.accelT + mt.cruiseV * mt.cruiseT
        + mt.cruiseV * mt.accelT - 0.5 * accel * mt.accelT * mt.accelT;
      mt.cruiseV * (mt.accelT + mt.cruiseT);
    }
  }

  /** A toolhead move as the extra-axis hooks see it; the per-axis lists
      hold x, y, z followed by the extra axes. */
  datatype Move = Move(
    axesR: seq<real>, startPos: seq<real>,
    accel: real, startV: real, cruiseV: real,
    accelT: real, cruiseT: real, decelT: real,
    maxCruiseV2: real)

  /** Distance of the whole toolhead move along its direction. */
  function MoveDistance(m: Move): real
  {
    m.startV * m.accelT + 0.5 * m.accel * m.accelT * m.accelT
    + m.cruiseV * m.cruiseT
    + m.cruiseV * m.decelT - 0.5 * m.accel * m.decelT * m.decelT
  }

  /** `process_move`: the toolhead move projected onto this extra axis, with
      accel, start_v and cruise_v scaled by the axis ratio and the phase
      durations shared with the toolhead. */
  function ProcessSegment(t: real, m: Move, eaIndex: nat): (s: Segment)
    requires eaIndex < |m.axesR| && eaIndex < |m.startPos|
    ensures s.printTime == t && s.startPos == m.startPos[eaIndex] && s.axisR == 1.0
    ensures s.accelT == m.accelT && s.cruiseT == m.cruiseT && s.decelT == m.decelT
    ensures SegmentDuration(s) == m.accelT + m.cruiseT + m.decelT
  {
    var r := m.axesR[eaIndex];
    Segment(t, m.accelT, m.cruiseT, m.decelT, m.startPos[eaIndex], 1.0,
            m.startV * r, m.cruiseV * r, m.accel * r)
  }

  /** The extra axis travels exactly its share (the axis ratio) of the
      toolhead move, so it starts and ends where the toolhead move says. */
  lemma {:induction false} ProcessSegmentTravel(t: real, m: Move, eaIndex: nat)
    requires eaIndex < |m.axesR| && eaIndex < |m.startPos|
    ensures SegmentDistance(ProcessSegment(t, m, eaIndex)) == m.axesR[eaIndex] * MoveDistance(m)
    ensures SegmentEnd(ProcessSegment(t, m, eaIndex)) == m.startPos[eaIndex] + m.axesR[eaIndex] * MoveDistance(m)
  {
    var r := m.axesR[eaIndex];
    var s := ProcessSegment(t, m, eaIndex);
    assert s.startV * s.accelT == r * (m.startV * m.accelT);
    assert 0.5 * s.accel * s.accelT * s.accelT == r * (0.5 * m.accel * m.accelT * m.accelT);
    assert s.cruiseV * s.cruiseT == r * (m.cruiseV * m.cruiseT);
    assert s.cruiseV * s.decelT == r * (m.cruiseV * m.decelT);
    assert 0.5 * s.accel * s.decelT * s.decelT == r * (0.5 * m.accel * m.decelT * m.decelT);
  }

  /** `check_move`: no bounds are enforced on a manual stepper axis. */
  function CheckMove(m: Move, eaIndex: nat): (accepted: bool)
    ensures accepted
  {
    true
  }

  /** `calc_junction`: the extra axis imposes no junction limit of its own;
      the move keeps its own maximum cruise speed squared. */
  function CalcJunction(prev: Move, m: Move, eaIndex: nat): (v2: real)
    ensures v2 == m.maxCruiseV2
  {
    m.maxCruiseV2
  }

  /** An extra axis letter is one upper-case ASCII letter that is not one of
      the toolhead's own G-code letters. */
  predicate ValidGcodeAxis(axis: string)
  {
    |axis| == 1 && 'A' <= axis[0] <= 'Z' && axis[0] !in "XYZEFN"
  }

  /** What a MANUAL_STEPPER GCODE_AXIS=<axis> request does. */
  datatype AxisAction = Unregister | Ignore | Reject(msg: string) | Register(id: char)

  /** The decision of `command_with_gcode_axis`: while registered only an
      empty value (unregister) is accepted; while unregistered an empty
      value is silently ignored and any other invalid letter rejected. */
  function AxisDecision(current: Option<char>, axis: string): (a: AxisAction)
    ensures current.Some? ==> (a == Unregister <==> axis == "") && (a.Reject? <==> axis != "")
    ensures current.None? ==> (a.Register? <==> ValidGcodeAxis(axis))
    ensures current.None? ==> (a == Ignore <==> axis == "")
    ensures current.None? ==> (a.Reject? <==> axis != "" && !ValidGcodeAxis(axis))
    ensures a.Register? ==> axis == [a.id]
  {
    if current.Some? then
      if axis != "" then Reject("Must unregister axis first") else Unregister
    else if |axis| != 1 || !('A' <= axis[0] <= 'Z') || axis[0] in "XYZEFN" then
      if axis == "" then Ignore else Reject("Not a valid GCODE_AXIS")
    else Register(axis[0])
  }

  /** The parameters of one MANUAL_STEPPER command (absent ones are None). */
  datatype GCommand = GCommand(
    gcodeAxis: Option<string>,
    enable: Option<int>,
    setPosition: Option<real>,
    speed: Option<real>,
    accel: Option<real>,
    stopOnEndstop: Option<int>,
    move: Option<real>,
    sync: Option<int>)

  function GetOr<T>(o: Option<T>, d: T): (r: T)
    ensures o.Some? ==> r == o.value
    ensures o.None? ==> r == d
  {
    if o.Some? then o.value else d
  }

  function Abs(x: int): nat { if x < 0 then -x else x }

  /** SPEED (default `velocity`) is positive and ACCEL (default `accel`)
      is not negative. */
  predicate ValidSpeeds(g: GCommand, velocity: real, accel: real)
  {
    GetOr(g.speed, velocity) > 0.0 && GetOr(g.accel, accel) >= 0.0
  }

  /** The command queues a plain move: valid SPEED and ACCEL, MOVE given,
      no STOP_ON_ENDSTOP. */
  predicate PlainMove(g: GCommand, velocity: real, accel: real)
  {
    ValidSpeeds(g, velocity, accel) && GetOr(g.stopOnEndstop, 0) == 0 && g.move.Some?
  }

  /** A request to the homing module's `manual_home`. */
  datatype HomingRequest = HomingRequest(movepos: real, speed: real, triggered: bool, checkTrigger: bool)

  /** One `motor_enable` / `motor_disable` call. */
  datatype EnableEvent = EnableEvent(stepper: string, on: bool, time: real)

  function EnableEvents(steppers: seq<string>, on: bool, t: real): (r: seq<EnableEvent>)
    ensures |r| == |steppers|
    ensures forall i :: 0 <= i < |r| ==> r[i] == EnableEvent(steppers[i], on, t)
  {
    seq(|steppers|, i requires 0 <= i < |steppers| => EnableEvent(steppers[i], on, t))
  }

  /** The parts of the toolhead this module drives. */
  class Toolhead {
    var lastMoveTime: real
    /** Registered extra axes: the object's name and its start position. */
    var extraAxes: seq<(string, real)>
    var stepGenerators: seq<string>
    /** Times passed to `note_mcu_movequeue_activity`. */
    var movequeueActivity: seq<real>

    constructor ()
      ensures lastMoveTime == 0.0 && extraAxes == [] && stepGenerators == []
      ensures movequeueActivity == []
    {
      lastMoveTime := 0.0;
      extraAxes := [];
      stepGenerators := [];
      movequeueActivity := [];
    }

    method Dwell(delay: real)
      modifies this`lastMoveTime
      ensures lastMoveTime == old(lastMoveTime) + Max(0.0, delay)
    {
      lastMoveTime := lastMoveTime + Max(0.0, delay);
    }

    method NoteMovequeueActivity(t: real)
      modifies this`movequeueActivity
      ensures movequeueActivity == old(movequeueActivity) + [t]
    {
      movequeueActivity := movequeueActivity + [t];
    }

    method AddExtraAxis(name: string, pos: real)
      modifies this`extraAxes
      ensures extraAxes == old(extraAxes) + [(name, pos)]
    {
      extraAxes := extraAxes + [(name, pos)];
    }

    method RemoveExtraAxis(name: string)
      modifies this`extraAxes
      ensures extraAxes == RemoveAxis(old(extraAxes), name)
    {
      extraAxes := RemoveAxis(extraAxes, name);
    }

    method RegisterStepGenerator(name: string)
      modifies this`stepGenerators
      ensures stepGenerators == old(stepGenerators) + [name]
    {
      stepGenerators := stepGenerators + [name];
    }

    method UnregisterStepGenerator(name: string)
      modifies this`stepGenerators
      ensures stepGenerators == RemoveFirst(old(stepGenerators), name)
    {
      stepGenerators := RemoveFirst(stepGenerators, name);
    }
  }

  /** Names of the registered extra axes. */
  function AxisNames(axes: seq<(string, real)>): (r: seq<string>)
    ensures |r| == |axes|
    ensures forall i :: 0 <= i < |axes| ==> r[i] == axes[i].0
  {
    seq(|axes|, i requires 0 <= i < |axes| => axes[i].0)
  }

  /** Drop the first registered extra axis of the given name, if any. */
  function RemoveAxis(axes: seq<(string, real)>, name: string): (r: seq<(string, real)>)
    ensures name !in AxisNames(axes) ==> r == axes
    ensures name in AxisNames(axes) ==> |r| == |axes| - 1
    ensures multiset(r) <= multiset(axes)
  {
    if axes == [] then []
    else
      AxisNamesCons(axes);
      if axes[0].0 == name then
        axes[1..]
      else
        assert name in AxisNames(axes) <==> name in AxisNames(axes[1..]);
        [axes[0]] + RemoveAxis(axes[1..], name)
  }

  lemma {:induction false} AxisNamesCons(axes: seq<(string, real)>)
    requires axes != []
    ensures axes == [axes[0]] + axes[1..]
    ensures AxisNames(axes) == [axes[0].0] + AxisNames(axes[1..])
  {
    assert axes == [axes[0]] + axes[1..];
  }

  /** `list.remove` guarded by a membership test. */
  function RemoveFirst(s: seq<string>, x: string): (r: seq<string>)
    ensures x !in s ==> r == s
    ensures x in s ==> |r| == |s| - 1 && multiset(r) == multiset(s) - multiset{x}
  {
    if s == [] then []
    else if s[0] == x then
      assert s == [s[0]] + s[1..];
      s[1..]
    else
      assert s == [s[0]] + s[1..];
      [s[0]] + RemoveFirst(s[1..], x)
  }

  class StepperEnable {
    var events: seq<EnableEvent>

    constructor ()
      ensures events == []
    {
      events := [];
    }

    method MotorSet(stepper: string, on: bool, t: real)
      modifies this
      ensures events == old(events) + [EnableEvent(stepper, on, t)]
    {
      events := events + [EnableEvent(stepper, on, t)];
    }
  }

  class Homing {
    var requests: seq<HomingRequest>

    constructor ()
      ensures requests == []
    {
      requests := [];
    }

    method ManualHome(r: HomingRequest)
      modifies this
      ensures requests == old(requests) + [r]
    {
      requests := requests + [r];
    }
  }

  class ManualStepperObj {
    /** The rail name, which is also the stepper name. */
    const name: string
    const steppers: seq<string>
    /** An endstop_pin was configured. */
    const canHome: bool
    const velocity: real
    const accel: real
    var homingAccel: real
    var nextCmdTime: real
    /** The rail's commanded position. */
    var commandedPos: real
    /** Segments appended to this stepper's own trapezoid queue. */
    var trapq: seq<Segment>
    var axisGcodeId: Option<char>
    const toolhead: Toolhead
    const enables: StepperEnable
    const homing: Homing

    /** Configuration bounds, and a registered axis letter is a valid one. */
    predicate Valid()
      reads this
    {
      velocity > 0.0 && accel >= 0.0
      && (axisGcodeId.Some? ==> ValidGcodeAxis([axisGcodeId.value]))
    }

    constructor (name: string, steppers: seq<string>, canHome: bool,
                 velocity: real, accel: real,
                 toolhead: Toolhead, enables: StepperEnable, homing: Homing)
      requires velocity > 0.0 && accel >= 0.0
      ensures this.name == name && this.steppers == steppers && this.canHome == canHome
      ensures this.velocity == velocity && this.accel == accel && homingAccel == accel
      ensures nextCmdTime == 0.0 && commandedPos == 0.0 && trapq == [] && axisGcodeId == None
      ensures this.toolhead == toolhead && this.enables == enables && this.homing == homing
      ensures Valid()
    {
      this.name := name;
      this.steppers := steppers;
      this.canHome := canHome;
      this.velocity := velocity;
      this.accel := accel;
      homingAccel := accel;
      nextCmdTime := 0.0;
      commandedPos := 0.0;
      trapq := [];
      axisGcodeId := None;
      this.toolhead := toolhead;
      this.enables := enables;
      this.homing := homing;
    }

    /** `sync_print_time`: catch up with the toolhead, or make the toolhead
        wait until this stepper's queued moves are done; afterwards both
        clocks agree and neither went backwards. */
    method SyncPrintTime()
      modifies this`nextCmdTime, toolhead`lastMoveTime
      ensures nextCmdTime == Max(old(nextCmdTime), old(toolhead.lastMoveTime))
      ensures toolhead.lastMoveTime == nextCmdTime
      ensures nextCmdTime >= old(nextCmdTime) && toolhead.lastMoveTime >= old(toolhead.lastMoveTime)
    {
      var printTime := toolhead.lastMoveTime;
      if nextCmdTime > printTime {
        toolhead.Dwell(nextCmdTime - printTime);
      } else {
        nextCmdTime := printTime;
      }
    }

    /** `dwell`: a negative delay is ignored, so the clock never goes back. */
    method Dwell(delay: real)
      modifies this`nextCmdTime
      ensures nextCmdTime == old(nextCmdTime) + Max(0.0, delay)
      ensures nextCmdTime >= old(nextCmdTime)
    {
      nextCmdTime := nextCmdTime + Max(0.0, delay);
    }

    /** `do_enable`: every stepper of the rail is enabled (or disabled) at
        the synchronised command time. */
    method DoEnable(on: bool)
      modifies this`nextCmdTime, toolhead`lastMoveTime, enables
      ensures nextCmdTime == Max(old(nextCmdTime), old(toolhead.lastMoveTime))
      ensures toolhead.lastMoveTime == nextCmdTime
      ensures enables.events == old(enables.events) + EnableEvents(steppers, on, nextCmdTime)
    {
      SyncPrintTime();
      for i := 0 to |steppers|
        invariant nextCmdTime == toolhead.lastMoveTime == Max(old(nextCmdTime), old(toolhead.lastMoveTime))
        invariant enables.events == old(enables.events) + EnableEvents(steppers[..i], on, nextCmdTime)
      {
        enables.MotorSet(steppers[i], on, nextCmdTime);
        assert EnableEvents(steppers[..i + 1], on, nextCmdTime)
            == EnableEvents(steppers[..i], on, nextCmdTime) + [EnableEvent(steppers[i], on, nextCmdTime)];
      }
      assert steppers[..|steppers|] == steppers;
      SyncPrintTime();
    }

    /** `do_set_position`. */
    method DoSetPosition(pos: real)
      modifies this`commandedPos
      ensures commandedPos == pos
    {
      commandedPos := pos;
    }

    /** `do_move`: queue one symmetric trapezoid from the commanded position
        starting at the synchronised command time, generate its steps (the
        commanded position becomes the segment's end) and advance the
        command time past it. */
    method DoMove(movepos: real, speed: real, accel: real, sync: bool,
                  moveTime: (real, real, real) -> MoveTimes)
      requires NonNegativeTimes(moveTime)
      modifies this`nextCmdTime, this`trapq, this`commandedPos
      modifies toolhead`lastMoveTime, toolhead`movequeueActivity
      ensures var t0 := Max(old(nextCmdTime), old(toolhead.lastMoveTime));
              var seg := MoveSegment(t0, old(commandedPos), moveTime(movepos - old(commandedPos), speed, accel), accel);
              var t1 := t0 + SegmentDuration(seg);
              && trapq == old(trapq) + [seg]
              && commandedPos == SegmentEnd(seg)
              && toolhead.movequeueActivity == old(toolhead.movequeueActivity) + [t1]
              && nextCmdTime == (if sync then Max(t1, t0) else t1)
              && toolhead.lastMoveTime == (if sync then nextCmdTime else t0)
      ensures speed > 0.0 && accel >= 0.0 ==>
              nextCmdTime == Max(old(nextCmdTime), old(toolhead.lastMoveTime)) + SegmentDuration(trapq[|trapq| - 1])
      ensures speed > 0.0 && accel >= 0.0 ==> nextCmdTime >= old(nextCmdTime)
    {
      SyncPrintTime();
      var cp := commandedPos;
      var mt := moveTime(movepos - cp, speed, accel);
      var seg := MoveSegment(nextCmdTime, cp, mt, accel);
      trapq := trapq + [seg];
      nextCmdTime := nextCmdTime + mt.accelT + mt.cruiseT + mt.accelT;
      commandedPos := SegmentEnd(seg);
      toolhead.NoteMovequeueActivity(nextCmdTime);
      if sync {
        SyncPrintTime();
      }
    }

    /** `do_homing_move`: refused without an endstop, before anything
        changes; otherwise the homing acceleration is recorded and the move
        handed to the homing module. */
    method DoHomingMove(movepos: real, speed: real, accel: real, triggered: bool, checkTrigger: bool)
      returns (err: Option<string>)
      modifies this`homingAccel, homing
      ensures !canHome ==> err == Some("No endstop for this manual stepper")
      ensures !canHome ==> homingAccel == old(homingAccel) && homing.requests == old(homing.requests)
      ensures canHome ==> err.None? && homingAccel == accel
      ensures canHome ==> homing.requests == old(homing.requests) + [HomingRequest(movepos, speed, triggered, checkTrigger)]
    {
      if !canHome {
        return Some("No endstop for this manual stepper");
      }
      homingAccel := accel;
      homing.ManualHome(HomingRequest(movepos, speed, triggered, checkTrigger));
      return None;
    }

    /** `command_with_gcode_axis`, following `AxisDecision`. */
    method CommandWithGcodeAxis(axis: string) returns (err: Option<string>)
      requires Valid()
      modifies this`axisGcodeId, toolhead`extraAxes, toolhead`stepGenerators
      ensures Valid()
      ensures var a := AxisDecision(old(axisGcodeId), axis);
              match a
              case Unregister =>
                err.None? && axisGcodeId.None?
                && toolhead.extraAxes == RemoveAxis(old(toolhead.extraAxes), name)
                && toolhead.stepGenerators == RemoveFirst(old(toolhead.stepGenerators), name)
              case Ignore =>
                err.None? && axisGcodeId == old(axisGcodeId)
                && toolhead.extraAxes == old(toolhead.extraAxes)
                && toolhead.stepGenerators == old(toolhead.stepGenerators)
              case Reject(msg) =>
                err == Some(msg) && axisGcodeId == old(axisGcodeId)
                && toolhead.extraAxes == old(toolhead.extraAxes)
                && toolhead.stepGenerators == old(toolhead.stepGenerators)
              case Register(id) =>
                err.None? && axisGcodeId == Some(id)
                && toolhead.extraAxes == old(toolhead.extraAxes) + [(name, commandedPos)]
                && toolhead.stepGenerators == old(toolhead.stepGenerators) + [name]
    {
      var a := AxisDecision(axisGcodeId, axis);
      match a
      case Unregister =>
        toolhead.RemoveExtraAxis(name);
        toolhead.UnregisterStepGenerator(name);
        axisGcodeId := None;
        err := None;
      case Ignore =>
        err := None;
      case Reject(msg) =>
        err := Some(msg);
      case Register(id) =>
        axisGcodeId := Some(id);
        toolhead.AddExtraAxis(name, commandedPos);
        toolhead.RegisterStepGenerator(name);
        err := None;
    }

    /** `cmd_MANUAL_STEPPER`. ENABLE and SET_POSITION take effect before
        SPEED/ACCEL are validated, as in the command handler; a homing move
        needs MOVE; a plain move synchronises unless SYNC=0; with neither,
        SYNC=1 alone synchronises. */
    method Cmd(g: GCommand, moveTime: (real, real, real) -> MoveTimes) returns (err: Option<string>)
      requires Valid() && NonNegativeTimes(moveTime)
      modifies this, toolhead, enables, homing
      ensures Valid()
      ensures g.gcodeAxis.None? && old(axisGcodeId).Some? ==>
        err == Some("Must unregister from gcode axis first") && trapq == old(trapq)
        && nextCmdTime == old(nextCmdTime) && commandedPos == old(commandedPos)
      ensures g.gcodeAxis.Some? ==> commandedPos == old(commandedPos) && trapq == old(trapq)
      // GCODE_AXIS is handled by `command_with_gcode_axis` alone.
      ensures g.gcodeAxis.Some? ==>
              nextCmdTime == old(nextCmdTime) && toolhead.lastMoveTime == old(toolhead.lastMoveTime)
              && homingAccel == old(homingAccel) && enables.events == old(enables.events)
              && homing.requests == old(homing.requests)
      ensures g.gcodeAxis.Some? ==>
              match AxisDecision(old(axisGcodeId), g.gcodeAxis.value)
              case Unregister =>
                err.None? && axisGcodeId.None?
                && toolhead.extraAxes == RemoveAxis(old(toolhead.extraAxes), name)
                && toolhead.stepGenerators == RemoveFirst(old(toolhead.stepGenerators), name)
              case Ignore =>
                err.None? && axisGcodeId == old(axisGcodeId)
                && toolhead.extraAxes == old(toolhead.extraAxes)
                && toolhead.stepGenerators == old(toolhead.stepGenerators)
              case Reject(msg) =>
                err == Some(msg) && axisGcodeId == old(axisGcodeId)
                && toolhead.extraAxes == old(toolhead.extraAxes)
                && toolhead.stepGenerators == old(toolhead.stepGenerators)
              case Register(id) =>
                err.None? && axisGcodeId == Some(id)
                && toolhead.extraAxes == old(toolhead.extraAxes) + [(name, old(commandedPos))]
                && toolhead.stepGenerators == old(toolhead.stepGenerators) + [name]
      // Without GCODE_AXIS the registration with the toolhead is untouched.
      ensures g.gcodeAxis.None? ==>
              axisGcodeId == old(axisGcodeId) && toolhead.extraAxes == old(toolhead.extraAxes)
              && toolhead.stepGenerators == old(toolhead.stepGenerators)
      // Only a homing move with an endstop records the homing acceleration.
      ensures !(g.gcodeAxis.None? && old(axisGcodeId).None? && ValidSpeeds(g, velocity, accel)
                && GetOr(g.stopOnEndstop, 0) != 0 && g.move.Some? && canHome) ==>
              homingAccel == old(homingAccel) && homing.requests == old(homing.requests)
      ensures g.gcodeAxis.None? && g.speed.Some? && g.speed.value <= 0.0 ==> err.Some? && trapq == old(trapq)
      ensures g.gcodeAxis.None? && g.accel.Some? && g.accel.value < 0.0 ==> err.Some? && trapq == old(trapq)
      ensures nextCmdTime >= old(nextCmdTime)
      ensures err.None? && trapq != old(trapq) ==> g.move.Some? && GetOr(g.stopOnEndstop, 0) == 0
      ensures GetOr(g.stopOnEndstop, 0) != 0 && g.move.Some? && !canHome && g.gcodeAxis.None?
              && old(axisGcodeId).None? && GetOr(g.speed, velocity) > 0.0 && GetOr(g.accel, accel) >= 0.0
              ==> err == Some("No endstop for this manual stepper")
      // ENABLE switches every stepper at the synchronised time.
      ensures g.gcodeAxis.None? && old(axisGcodeId).None? ==>
              enables.events == old(enables.events)
                + (if g.enable.Some?
                   then EnableEvents(steppers, g.enable.value != 0, Max(old(nextCmdTime), old(toolhead.lastMoveTime)))
                   else [])
      // Without a plain move, SET_POSITION alone decides the position.
      ensures g.gcodeAxis.None? && old(axisGcodeId).None?
              && !(PlainMove(g, velocity, accel)) ==>
              trapq == old(trapq) && commandedPos == GetOr(g.setPosition, old(commandedPos))
      // A valid MOVE queues its trapezoid from the (possibly just set)
      // position at the synchronised time, as `DoMove` does.
      ensures g.gcodeAxis.None? && old(axisGcodeId).None? && PlainMove(g, velocity, accel) ==>
              var t0 := Max(old(nextCmdTime), old(toolhead.lastMoveTime));
              var cp := GetOr(g.setPosition, old(commandedPos));
              var acc := GetOr(g.accel, accel);
              var seg := MoveSegment(t0, cp, moveTime(g.move.value - cp, GetOr(g.speed, velocity), acc), acc);
              && err.None? && trapq == old(trapq) + [seg]
              && commandedPos == SegmentEnd(seg) && nextCmdTime == t0 + SegmentDuration(seg)
              && toolhead.lastMoveTime == (if GetOr(g.sync, 1) != 0 then nextCmdTime else t0)
      // Neither MOVE nor STOP_ON_ENDSTOP: SYNC=1 (or ENABLE) synchronises
      // the clocks, and otherwise they are left alone.
      ensures g.gcodeAxis.None? && old(axisGcodeId).None? && ValidSpeeds(g, velocity, accel)
              && GetOr(g.stopOnEndstop, 0) == 0 && g.move.None? ==>
              err.None?
              && (if GetOr(g.sync, 0) != 0 || g.enable.Some?
                  then nextCmdTime == toolhead.lastMoveTime == Max(old(nextCmdTime), old(toolhead.lastMoveTime))
                  else nextCmdTime == old(nextCmdTime) && toolhead.lastMoveTime == old(toolhead.lastMoveTime))
      // A homing move with an endstop goes to the homing module.
      ensures g.gcodeAxis.None? && old(axisGcodeId).None? && ValidSpeeds(g, velocity, accel)
              && GetOr(g.stopOnEndstop, 0) != 0 && g.move.Some? && canHome ==>
              var stop := GetOr(g.stopOnEndstop, 0);
              && err.None? && homingAccel == GetOr(g.accel, accel)
              && homing.requests == old(homing.requests)
                 + [HomingRequest(g.move.value, GetOr(g.speed, velocity), stop > 0, Abs(stop) == 1)]
      ensures g.gcodeAxis.None? && old(axisGcodeId).None? && ValidSpeeds(g, velocity, accel)
              && GetOr(g.stopOnEndstop, 0) != 0 && g.move.None? ==>
              err == Some("Error on 'MANUAL_STEPPER': missing MOVE")
    {
      if g.gcodeAxis.Some? {
        err := CommandWithGcodeAxis(g.gcodeAxis.value);
        return;
      }
      if axisGcodeId.Some? {
        return Some("Must unregister from gcode axis first");
      }
      err := CmdUnregistered(g, moveTime);
    }

    /** `cmd_MANUAL_STEPPER` without GCODE_AXIS on a stepper that is not a
        G-code axis: ENABLE, then SET_POSITION, then the motion part. */
    method CmdUnregistered(g: GCommand, moveTime: (real, real, real) -> MoveTimes) returns (err: Option<string>)
      requires Valid() && NonNegativeTimes(moveTime) && axisGcodeId.None?
      modifies this`nextCmdTime, this`trapq, this`commandedPos, this`homingAccel
      modifies toolhead`lastMoveTime, toolhead`movequeueActivity, enables, homing
      ensures Valid()
      ensures nextCmdTime >= old(nextCmdTime)
      ensures enables.events == old(enables.events)
                + (if g.enable.Some?
                   then EnableEvents(steppers, g.enable.value != 0, Max(old(nextCmdTime), old(toolhead.lastMoveTime)))
                   else [])
      ensures !PlainMove(g, velocity, accel) ==>
              trapq == old(trapq) && commandedPos == GetOr(g.setPosition, old(commandedPos))
      ensures PlainMove(g, velocity, accel) ==>
              var t0 := Max(old(nextCmdTime), old(toolhead.lastMoveTime));
              var cp := GetOr(g.setPosition, old(commandedPos));
              var acc := GetOr(g.accel, accel);
              var seg := MoveSegment(t0, cp, moveTime(g.move.value - cp, GetOr(g.speed, velocity), acc), acc);
              && err.None? && trapq == old(trapq) + [seg]
              && commandedPos == SegmentEnd(seg) && nextCmdTime == t0 + SegmentDuration(seg)
              && toolhead.lastMoveTime == (if GetOr(g.sync, 1) != 0 then nextCmdTime else t0)
      ensures GetOr(g.speed, velocity) <= 0.0 ==> err == Some("SPEED must be above 0")
      ensures GetOr(g.speed, velocity) > 0.0 && GetOr(g.accel, accel) < 0.0 ==> err == Some("ACCEL must have minimum of 0")
      ensures ValidSpeeds(g, velocity, accel) && GetOr(g.stopOnEndstop, 0) == 0 && g.move.None? ==>
              err.None?
              && (if GetOr(g.sync, 0) != 0 || g.enable.Some?
                  then nextCmdTime == toolhead.lastMoveTime == Max(old(nextCmdTime), old(toolhead.lastMoveTime))
                  else nextCmdTime == old(nextCmdTime) && toolhead.lastMoveTime == old(toolhead.lastMoveTime))
      ensures ValidSpeeds(g, velocity, accel) && GetOr(g.stopOnEndstop, 0) != 0 && g.move.Some? && canHome ==>
              var stop := GetOr(g.stopOnEndstop, 0);
              && err.None? && homingAccel == GetOr(g.accel, accel)
              && homing.requests == old(homing.requests)
                 + [HomingRequest(g.move.value, GetOr(g.speed, velocity), stop > 0, Abs(stop) == 1)]
      ensures ValidSpeeds(g, velocity, accel) && GetOr(g.stopOnEndstop, 0) != 0 && g.move.Some? && !canHome ==>
              err == Some("No endstop for this manual stepper")
      ensures ValidSpeeds(g, velocity, accel) && GetOr(g.stopOnEndstop, 0) != 0 && g.move.None? ==>
              err == Some("Error on 'MANUAL_STEPPER': missing MOVE")
      ensures !(ValidSpeeds(g, velocity, accel) && GetOr(g.stopOnEndstop, 0) != 0 && g.move.Some? && canHome) ==>
              homingAccel == old(homingAccel) && homing.requests == old(homing.requests)
    {
      if g.enable.Some? {
        DoEnable(g.enable.value != 0);
      }
      if g.setPosition.Some? {
        DoSetPosition(g.setPosition.value);
      }
      err := CmdMotion(g, moveTime);
    }

    /** The part of `cmd_MANUAL_STEPPER` after ENABLE and SET_POSITION:
        SPEED and ACCEL are validated, then a homing move, a plain move or
        a SYNC is carried out. */
    method CmdMotion(g: GCommand, moveTime: (real, real, real) -> MoveTimes) returns (err: Option<string>)
      requires Valid() && NonNegativeTimes(moveTime)
      modifies this`nextCmdTime, this`trapq, this`commandedPos, this`homingAccel
      modifies toolhead`lastMoveTime, toolhead`movequeueActivity, homing
      ensures Valid()
      ensures nextCmdTime >= old(nextCmdTime)
      ensures GetOr(g.speed, velocity) <= 0.0 ==> err == Some("SPEED must be above 0")
      ensures GetOr(g.speed, velocity) > 0.0 && GetOr(g.accel, accel) < 0.0 ==> err == Some("ACCEL must have minimum of 0")
      ensures !ValidSpeeds(g, velocity, accel) ==>
              nextCmdTime == old(nextCmdTime) && toolhead.lastMoveTime == old(toolhead.lastMoveTime)
      ensures !PlainMove(g, velocity, accel) ==> trapq == old(trapq) && commandedPos == old(commandedPos)
      ensures PlainMove(g, velocity, accel) ==>
              var t0 := Max(old(nextCmdTime), old(toolhead.lastMoveTime));
              var acc := GetOr(g.accel, accel);
              var seg := MoveSegment(t0, old(commandedPos), moveTime(g.move.value - old(commandedPos), GetOr(g.speed, velocity), acc), acc);
              && err.None? && trapq == old(trapq) + [seg]
              && commandedPos == SegmentEnd(seg) && nextCmdTime == t0 + SegmentDuration(seg)
              && toolhead.lastMoveTime == (if GetOr(g.sync, 1) != 0 then nextCmdTime else t0)
      ensures ValidSpeeds(g, velocity, accel) && GetOr(g.stopOnEndstop, 0) == 0 && g.move.None? ==>
              err.None?
              && (if GetOr(g.sync, 0) != 0
                  then nextCmdTime == toolhead.lastMoveTime == Max(old(nextCmdTime), old(toolhead.lastMoveTime))
                  else nextCmdTime == old(nextCmdTime) && toolhead.lastMoveTime == old(toolhead.lastMoveTime))
      ensures ValidSpeeds(g, velocity, accel) && GetOr(g.stopOnEndstop, 0) != 0 ==>
              nextCmdTime == old(nextCmdTime) && toolhead.lastMoveTime == old(toolhead.lastMoveTime)
      ensures ValidSpeeds(g, velocity, accel) && GetOr(g.stopOnEndstop, 0) != 0 && g.move.Some? && canHome ==>
              var stop := GetOr(g.stopOnEndstop, 0);
              && err.None? && homingAccel == GetOr(g.accel, accel)
              && homing.requests == old(homing.requests)
                 + [HomingRequest(g.move.value, GetOr(g.speed, velocity), stop > 0, Abs(stop) == 1)]
      ensures ValidSpeeds(g, velocity, accel) && GetOr(g.stopOnEndstop, 0) != 0 && g.move.Some? && !canHome ==>
              err == Some("No endstop for this manual stepper")
      ensures ValidSpeeds(g, velocity, accel) && GetOr(g.stopOnEndstop, 0) != 0 && g.move.None? ==>
              err == Some("Error on 'MANUAL_STEPPER': missing MOVE")
      ensures !(ValidSpeeds(g, velocity, accel) && GetOr(g.stopOnEndstop, 0) != 0 && g.move.Some? && canHome) ==>
              homingAccel == old(homingAccel) && homing.requests == old(homing.requests)
    {
      var speed := GetOr(g.speed, velocity);
      if speed <= 0.0 {
        return Some("SPEED must be above 0");
      }
      var accel := GetOr(g.accel, this.accel);
      if accel < 0.0 {
        return Some("ACCEL must have minimum of 0");
      }
      var homingMove := GetOr(g.stopOnEndstop, 0);
      if homingMove != 0 {
        if g.move.None? {
          return Some("Error on 'MANUAL_STEPPER': missing MOVE");
        }
        err := DoHomingMove(g.move.value, speed, accel, homingMove > 0, Abs(homingMove) == 1);
      } else if g.move.Some? {
        var sync := GetOr(g.sync, 1);
        DoMove(g.move.value, speed, accel, sync != 0, moveTime);
        err := None;
      } else if GetOr(g.sync, 0) != 0 {
        SyncPrintTime();
        err := None;
      } else {
        err := None;
      }
    }

    /** `get_position`: the commanded position on the first axis. */
    function GetPosition(): (pos: seq<real>)
      reads this
      ensures |pos| == 4 && pos[0] == commandedPos && pos[1] == pos[2] == pos[3] == 0.0
    {
      [commandedPos, 0.0, 0.0, 0.0]
    }

    /** `calc_position`: the rail's stepper position, on the first axis. */
    function CalcPosition(stepperPositions: map<string, real>): (pos: seq<real>)
      requires name in stepperPositions
      ensures |pos| == 3 && pos[0] == stepperPositions[name] && pos[1] == pos[2] == 0.0
    {
      [stepperPositions[name], 0.0, 0.0]
    }

    /** `set_position`, as the homing module calls it. */
    method SetPosition(newpos: seq<real>)
      requires |newpos| >= 1
      modifies this`commandedPos
      ensures commandedPos == newpos[0]
      ensures GetPosition()[0] == newpos[0]
    {
      DoSetPosition(newpos[0]);
    }

    /** `get_last_move_time`: synchronise, then report the command time. */
    method GetLastMoveTime() returns (t: real)
      modifies this`nextCmdTime, toolhead`lastMoveTime
      ensures t == nextCmdTime == toolhead.lastMoveTime
      ensures t == Max(old(nextCmdTime), old(toolhead.lastMoveTime))
    {
      SyncPrintTime();
      t := nextCmdTime;
    }

    /** `flush_step_generation`. */
    method FlushStepGeneration()
      modifies this`nextCmdTime, toolhead`lastMoveTime
      ensures nextCmdTime == toolhead.lastMoveTime == Max(old(nextCmdTime), old(toolhead.lastMoveTime))
    {
      SyncPrintTime();
    }

    /** `drip_move`: a synchronised move at the homing acceleration. */
    method DripMove(newpos: seq<real>, speed: real, moveTime: (real, real, real) -> MoveTimes)
      requires |newpos| >= 1 && NonNegativeTimes(moveTime)
      modifies this`nextCmdTime, this`trapq, this`commandedPos
      modifies toolhead`lastMoveTime, toolhead`movequeueActivity
      ensures var t0 := Max(old(nextCmdTime), old(toolhead.lastMoveTime));
              var seg := MoveSegment(t0, old(commandedPos), moveTime(newpos[0] - old(commandedPos), speed, homingAccel), homingAccel);
              && trapq == old(trapq) + [seg]
              && nextCmdTime == toolhead.lastMoveTime == Max(t0 + SegmentDuration(seg), t0)
              && commandedPos == SegmentEnd(seg)
      ensures speed > 0.0 && homingAccel >= 0.0 ==> nextCmdTime >= old(nextCmdTime)
    {
      DoMove(newpos[0], speed, homingAccel, true, moveTime);
    }

    /** `process_move`: append the projection of a toolhead move. */
    method ProcessMove(printTime: real, m: Move, eaIndex: nat)
      requires eaIndex < |m.axesR| && eaIndex < |m.startPos|
      modifies this`trapq
      ensures trapq == old(trapq) + [ProcessSegment(printTime, m, eaIndex)]
    {
      trapq := trapq + [ProcessSegment(printTime, m, eaIndex)];
    }
  }

  /** `calc_position` inverts `get_position`: reading back the rail's own
      commanded position gives the first three coordinates. */
  lemma {:induction false} CalcPositionOfGetPosition(ms: ManualStepperObj)
    ensures ms.CalcPosition(map[ms.name := ms.commandedPos]) == ms.GetPosition()[..3]
  {
  }
}
