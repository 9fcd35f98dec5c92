/**
 * The state every driver shares (replicatorg.drivers.DriverBaseImplementation):
 * the initialisation flag, a FIFO error queue, the cached machine position,
 * the table of seven coordinate offsets, the feedrate, and the machine's
 * tools addressed through the current-tool sentinel -1.
 *
 * The machine model (MachineModel and ToolModel) is reduced to a map from
 * tool index to a record of the tool's settings, the current tool, and the
 * temperature readings the firmware reports for each tool.
 */
module DriverBase {
  import opened Common
  import opened Versions
  import C = Capability
  import Commands

  datatype DriverError = DriverError(message: string, fatal: bool)

  /**
   * What the driver calls set on one tool, together with the spindle
   * readings, which no call of this core changes.
   */
  datatype Tool = Tool(
    motorDirection: C.MotorDirection,
    motorRpm: real,
    motorPwm: Int32,
    motorEnabled: bool,
    spindleDirection: C.MotorDirection,
    spindleRpm: real,
    spindlePwm: Int32,
    spindleEnabled: bool,
    spindleReadingRpm: real,
    spindleReadingPwm: Int32,
    targetTemperature: real,
    platformTargetTemperature: real,
    fanEnabled: bool,
    valveOpen: bool,
    automatedPlatformRunning: bool,
    floodCoolant: bool,
    mistCoolant: bool,
    colletOpen: bool)

  /** The two temperature readings the firmware reports for a tool. */
  datatype Readings = Readings(currentTemperature: real, platformCurrentTemperature: real)

  /**
   * The machine: its tools' settings by index, the index of the current
   * tool, and the readings reported so far for each tool.
   */
  datatype Machine = Machine(tools: map<Int32, Tool>, current: Int32, readings: map<Int32, Readings>)

  /** The readings of a tool; a tool the firmware has not reported on reads 0.0. */
  function ReadingsOf(m: Machine, k: Int32): Readings
  {
    if k in m.readings then m.readings[k] else Readings(0.0, 0.0)
  }

  /** Tool indices are never negative and the current tool exists. */
  predicate WellFormed(m: Machine)
  {
    m.current in m.tools && forall k :: k in m.tools ==> k >= 0
  }

  /** `if (toolhead == -1) toolhead = machine.currentTool().getIndex();` */
  function Resolve(m: Machine, toolhead: Int32): (r: Int32)
    ensures toolhead == Commands.CurrentTool ==> r == m.current
    ensures toolhead != Commands.CurrentTool ==> r == toolhead
  {
    if toolhead == Commands.CurrentTool then m.current else toolhead
  }

  /** machine.getTool(index), or NoSuchTool when the machine has no such tool. */
  function ToolAt(m: Machine, index: Int32): (r: Result<Tool>)
    ensures r.Ok? <==> index in m.tools
    ensures r.Ok? ==> r.value == m.tools[index]
    ensures r.Err? ==> r.error == NoSuchTool(index)
  {
    if index in m.tools then Ok(m.tools[index]) else Err(NoSuchTool(index))
  }

  /** The call's change to the tool at `index`, which must exist. */
  function Update(m: Machine, index: Int32, call: C.DriverCall): (r: Result<Machine>)
    ensures r.Ok? <==> index in m.tools
    ensures r.Err? ==> r.error == NoSuchTool(index)
    ensures r.Ok? ==> r.value == m.(tools := m.tools[index := Configure(call, m.tools[index])])
  {
    if index in m.tools then Ok(m.(tools := m.tools[index := Configure(call, m.tools[index])])) else Err(NoSuchTool(index))
  }

  /** The tool a call addresses once the sentinel is resolved: the current tool for the toolless tool calls. */
  function Target(m: Machine, call: C.DriverCall): (r: Option<Int32>)
    ensures call.ReadTemperature? ==> r.None?
    ensures C.ToolheadOf(call).Some? && !call.ReadTemperature? ==> r == Some(Resolve(m, C.ToolheadOf(call).value))
    ensures C.ToolheadOf(call).None? && r.Some? ==> r.value == m.current
  {
    match C.ToolheadOf(call)
    case Some(t) => if call.ReadTemperature? then None else Some(Resolve(m, t))
    case None =>
      if call.EnableFloodCoolant? || call.DisableFloodCoolant? || call.EnableMistCoolant?
         || call.DisableMistCoolant? || call.OpenCollet? || call.CloseCollet?
      then Some(m.current)
      else None
  }

  /**
   * The settings a call leaves on the tool it targets. The timed
   * enableMotor enables the motor and disables it again (the base delay in
   * between does nothing).
   */
  function Configure(call: C.DriverCall, tool: Tool): (r: Tool)
    ensures r.spindleReadingRpm == tool.spindleReadingRpm && r.spindleReadingPwm == tool.spindleReadingPwm
    ensures call.EnableMotor? ==> r.motorEnabled
    ensures call.EnableMotorFor? || call.DisableMotor? ==> !r.motorEnabled
    ensures call.SetTemperature? ==> r.targetTemperature == call.temperature
    ensures call.SetPlatformTemperature? ==> r.platformTargetTemperature == call.temperature
    ensures call.ReadTemperature? || call.Delay? || call.QueuePoint? ==> r == tool
  {
    match call
    case SetMotorDirection(d, _) => tool.(motorDirection := d)
    case SetMotorRPM(rpm, _) => tool.(motorRpm := rpm)
    case SetMotorSpeedPWM(pwm, _) => tool.(motorPwm := pwm)
    case EnableMotor(_) => tool.(motorEnabled := true)
    case EnableMotorFor(_, _) => tool.(motorEnabled := true).(motorEnabled := false)
    case DisableMotor(_) => tool.(motorEnabled := false)
    case SetSpindleDirection(d, _) => tool.(spindleDirection := d)
    case SetSpindleRPM(rpm, _) => tool.(spindleRpm := rpm)
    case SetSpindleSpeedPWM(pwm, _) => tool.(spindlePwm := pwm)
    case EnableSpindle(_) => tool.(spindleEnabled := true)
    case DisableSpindle(_) => tool.(spindleEnabled := false)
    case SetTemperature(v, _) => tool.(targetTemperature := v)
    case SetPlatformTemperature(v, _) => tool.(platformTargetTemperature := v)
    case EnableFloodCoolant => tool.(floodCoolant := true)
    case DisableFloodCoolant => tool.(floodCoolant := false)
    case EnableMistCoolant => tool.(mistCoolant := true)
    case DisableMistCoolant => tool.(mistCoolant := false)
    case EnableFan(_) => tool.(fanEnabled := true)
    case DisableFan(_) => tool.(fanEnabled := false)
    case SetAutomatedBuildPlatformRunning(s, _) => tool.(automatedPlatformRunning := s)
    case OpenValve(_) => tool.(valveOpen := true)
    case CloseValve(_) => tool.(valveOpen := false)
    case OpenCollet => tool.(colletOpen := true)
    case CloseCollet => tool.(colletOpen := false)
    case _ => tool
  }

  /**
   * The effect of a driver call on the machine in the base driver: the tool
   * calls resolve the sentinel and change their tool (see Configure), the
   * coolant and collet calls change the current tool, and every other call
   * leaves the machine alone.
   */
  function PerformOn(m: Machine, call: C.DriverCall): (r: Result<Machine>)
    ensures r.Err? <==> Target(m, call).Some? && Target(m, call).value !in m.tools
    ensures r.Ok? ==> r.value.current == m.current && r.value.tools.Keys == m.tools.Keys
  {
    match Target(m, call)
    case None => Ok(m)
    case Some(k) => Update(m, k, call)
  }

  /**
   * A call changes at most the tool it targets, never the set of tools or
   * the current tool, and fails exactly when that tool does not exist.
   */
  lemma PerformTouchesOnlyTarget(m: Machine, call: C.DriverCall)
    ensures PerformOn(m, call).Err? <==> Target(m, call).Some? && Target(m, call).value !in m.tools
    ensures PerformOn(m, call).Err? ==> PerformOn(m, call).error == NoSuchTool(Target(m, call).value)
    ensures PerformOn(m, call).Ok? ==>
              var m' := PerformOn(m, call).value;
              m'.current == m.current && m'.tools.Keys == m.tools.Keys &&
              forall k :: k in m.tools && Some(k) != Target(m, call) ==> m'.tools[k] == m.tools[k]
    ensures Target(m, call).None? ==> PerformOn(m, call) == Ok(m)
  {
  }

  /** Performing a call keeps the machine well formed. */
  lemma PerformKeepsWellFormed(m: Machine, call: C.DriverCall)
    requires WellFormed(m)
    ensures PerformOn(m, call).Ok? ==> WellFormed(PerformOn(m, call).value)
  {
    PerformTouchesOnlyTarget(m, call);
  }

  /**
   * The sentinel is resolved when the call is performed, not when the
   * command is built: a command carrying -1 behaves exactly like the same
   * command built for whichever tool is current at that moment.
   */
  lemma SentinelMeansCurrentTool(m: Machine, c: Commands.Command)
    requires Commands.HasTool(c) && c.tool == Commands.CurrentTool
    ensures PerformOn(m, Commands.Run(c)) == PerformOn(m, Commands.Run(c.(tool := m.current)))
  {
    var k := m.current;
    var c' := Commands.Retargeted(c, k);
    var a, b := Commands.Run(c), Commands.Run(c');
    assert Target(m, a) == Some(k) == Target(m, b);
    forall s: Tool ensures Configure(a, s) == Configure(b, s) {
      RetargetedConfigures(c, k, s);
    }
    SameEffect(m, a, b);
  }

  /** Two calls with the same target and the same change to it have the same effect. */
  lemma SameEffect(m: Machine, a: C.DriverCall, b: C.DriverCall)
    requires Target(m, a) == Target(m, b)
    requires forall s: Tool :: Configure(a, s) == Configure(b, s)
    ensures PerformOn(m, a) == PerformOn(m, b)
  {
  }

  /** The change a command's call makes does not depend on the tool it names. */
  lemma RetargetedConfigures(c: Commands.Command, k: Int32, s: Tool)
    requires Commands.HasTool(c)
    ensures Configure(Commands.Run(c), s) == Configure(Commands.Run(Commands.Retargeted(c, k)), s)
  {
    if c.CloseValve? || c.OpenValve? || c.DisableFan? || c.EnableFan? {
      RetargetedSwitch(c, k, s);
    } else if c.DisableMotor? || c.DisableSpindle? || c.EnableSpindle? || c.EnableExtruderMotor? {
      RetargetedMotor(c, k, s);
    } else if c.SetMotorDirection? || c.SetSpindleDirection? || c.SetMotorSpeedPWM? || c.SetMotorSpeedRPM? {
      RetargetedSpeed(c, k, s);
    } else {
      RetargetedSetting(c, k, s);
    }
  }

  lemma RetargetedSwitch(c: Commands.Command, k: Int32, s: Tool)
    requires c.CloseValve? || c.OpenValve? || c.DisableFan? || c.EnableFan?
    ensures Configure(Commands.Run(c), s) == Configure(Commands.Run(Commands.Retargeted(c, k)), s)
  {
  }

  lemma RetargetedMotor(c: Commands.Command, k: Int32, s: Tool)
    requires c.DisableMotor? || c.DisableSpindle? || c.EnableSpindle? || c.EnableExtruderMotor?
    ensures Configure(Commands.Run(c), s) == Configure(Commands.Run(Commands.Retargeted(c, k)), s)
  {
  }

  lemma RetargetedSpeed(c: Commands.Command, k: Int32, s: Tool)
    requires c.SetMotorDirection? || c.SetSpindleDirection? || c.SetMotorSpeedPWM? || c.SetMotorSpeedRPM?
    ensures Configure(Commands.Run(c), s) == Configure(Commands.Run(Commands.Retargeted(c, k)), s)
  {
  }

  lemma RetargetedSetting(c: Commands.Command, k: Int32, s: Tool)
    requires c.SetSpindleRPM? || c.SetTemperature? || c.SetPlatformTemperature? || c.ToggleAutomatedBuildPlatform?
    ensures Configure(Commands.Run(c), s) == Configure(Commands.Run(Commands.Retargeted(c, k)), s)
  {
  }

  /** The timed enableMotor leaves its tool's motor off and changes nothing else. */
  lemma TimedEnableEndsDisabled(m: Machine, millis: Int64, toolhead: Int32)
    requires Resolve(m, toolhead) in m.tools
    ensures PerformOn(m, C.EnableMotorFor(millis, toolhead)) == PerformOn(m, C.DisableMotor(Resolve(m, toolhead)))
    ensures PerformOn(m, C.EnableMotorFor(millis, toolhead)).Ok?
    ensures PerformOn(m, C.EnableMotorFor(millis, toolhead)).value.tools[Resolve(m, toolhead)].motorEnabled == false
  {
    var r := Resolve(m, toolhead);
    var t := m.tools[r];
    assert Resolve(m, r) == r;
    assert Target(m, C.EnableMotorFor(millis, toolhead)) == Some(r) == Target(m, C.DisableMotor(r));
    assert Configure(C.EnableMotorFor(millis, toolhead), t) == Configure(C.DisableMotor(r), t);
  }

  /**
   * enableMotor(millis, toolhead): the three calls it makes, in order, all on
   * the tool resolved once before the first of them.
   */
  function TimedEnableCalls(m: Machine, millis: Int64, toolhead: Int32): (calls: seq<C.DriverCall>)
    ensures |calls| == 3 && calls[1] == C.Delay(millis)
    ensures calls[0].EnableMotor? && calls[2].DisableMotor? && calls[0].toolhead == calls[2].toolhead == Resolve(m, toolhead)
  {
    var r := Resolve(m, toolhead);
    [C.EnableMotor(r), C.Delay(millis), C.DisableMotor(r)]
  }

  /** Performing calls one after another, stopping at the first exception. */
  function PerformAll(m: Machine, calls: seq<C.DriverCall>): Result<Machine>
    decreases |calls|
  {
    if |calls| == 0 then Ok(m)
    else
      match PerformOn(m, calls[0])
      case Err(e) => Err(e)
      case Ok(m1) => PerformAll(m1, calls[1..])
  }

  /** Three calls performed in order: the third runs on what the second left, unless one threw. */
  lemma PerformThree(m: Machine, calls: seq<C.DriverCall>)
    requires |calls| == 3
    ensures PerformOn(m, calls[0]).Err? ==> PerformAll(m, calls) == PerformOn(m, calls[0])
    ensures PerformOn(m, calls[0]).Ok? ==>
              var m1 := PerformOn(m, calls[0]).value;
              (PerformOn(m1, calls[1]).Err? ==> PerformAll(m, calls) == PerformOn(m1, calls[1])) &&
              (PerformOn(m1, calls[1]).Ok? ==> PerformAll(m, calls) == PerformOn(PerformOn(m1, calls[1]).value, calls[2]))
  {
    if PerformOn(m, calls[0]).Ok? {
      var m1 := PerformOn(m, calls[0]).value;
      assert PerformAll(m, calls) == PerformAll(m1, calls[1..]);
      if PerformOn(m1, calls[1]).Ok? {
        var m2 := PerformOn(m1, calls[1]).value;
        var last := calls[1..][1..];
        assert PerformAll(m1, calls[1..]) == PerformAll(m2, last);
        assert last[1..] == [] && last[0] == calls[2];
        if PerformOn(m2, calls[2]).Ok? {
          assert PerformAll(m2, last) == PerformAll(PerformOn(m2, calls[2]).value, []);
        }
      }
    }
  }

  /** The timed call has the same effect as its three calls performed in order. */
  lemma TimedEnableIsItsCalls(m: Machine, millis: Int64, toolhead: Int32)
    ensures PerformOn(m, C.EnableMotorFor(millis, toolhead)) == PerformAll(m, TimedEnableCalls(m, millis, toolhead))
  {
    var calls := TimedEnableCalls(m, millis, toolhead);
    var r := Resolve(m, toolhead);
    assert Resolve(m, r) == r;
    assert Target(m, C.EnableMotorFor(millis, toolhead)) == Some(r) == Target(m, calls[0]);
    PerformThree(m, calls);
    if r in m.tools {
      var t := m.tools[r];
      var m1 := m.(tools := m.tools[r := Configure(calls[0], t)]);
      assert PerformOn(m, calls[0]) == Ok(m1);
      assert PerformOn(m1, calls[1]) == Ok(m1);
      assert Resolve(m1, r) == r && Target(m1, calls[2]) == Some(r);
      MotorOnThenOff(t, r, millis, toolhead);
      assert m1.tools[r := Configure(calls[2], m1.tools[r])] == m.tools[r := Configure(C.EnableMotorFor(millis, toolhead), t)];
    }
  }

  /** Enabling the motor and then disabling it leaves the tool as the timed enable does. */
  lemma MotorOnThenOff(t: Tool, r: Int32, millis: Int64, toolhead: Int32)
    ensures Configure(C.DisableMotor(r), Configure(C.EnableMotor(r), t)) == Configure(C.EnableMotorFor(millis, toolhead), t)
  {
    var on := Configure(C.EnableMotor(r), t);
    assert on == t.(motorEnabled := true);
    assert Configure(C.DisableMotor(r), on) == t.(motorEnabled := false);
  }

  // ---------------------------------------------------------------------------
  // Settings and readings

  /** Two machines that differ at most in the temperature readings of their tools. */
  predicate SameSettings(a: Machine, b: Machine)
  {
    a.current == b.current && a.tools == b.tools
  }

  lemma SameSettingsTransitive(a: Machine, b: Machine, c: Machine)
    requires SameSettings(a, b) && SameSettings(b, c)
    ensures SameSettings(a, c)
  {
  }

  /**
   * Driver calls never look at the temperature readings: on machines with
   * the same settings a call fails alike and leaves the same settings.
   */
  lemma PerformIgnoresReadings(a: Machine, b: Machine, call: C.DriverCall)
    requires SameSettings(a, b)
    ensures PerformOn(a, call).Ok? <==> PerformOn(b, call).Ok?
    ensures PerformOn(a, call).Ok? ==> SameSettings(PerformOn(a, call).value, PerformOn(b, call).value)
  {
    var target := Target(a, call);
    assert target == Target(b, call);
    match target
    case None =>
    case Some(k) =>
      assert PerformOn(a, call) == Update(a, k, call) && PerformOn(b, call) == Update(b, k, call);
  }

  // ---------------------------------------------------------------------------
  // Tool queries

  /** getSpindleRPM(toolhead): the spindle speed reading of the addressed tool. */
  function GetSpindleRPM(m: Machine, toolhead: Int32): (r: Result<real>)
    ensures r.Ok? <==> Resolve(m, toolhead) in m.tools
    ensures r.Ok? ==> r.value == m.tools[Resolve(m, toolhead)].spindleReadingRpm
  {
    match ToolAt(m, Resolve(m, toolhead))
    case Ok(tool) => Ok(tool.spindleReadingRpm)
    case Err(e) => Err(e)
  }

  /** getSpindleSpeedPWM(toolhead) as written: it resolves the index, then reads the current tool anyway. */
  function GetSpindleSpeedPWMAsWritten(m: Machine, toolhead: Int32): (r: Result<Int32>)
    ensures r.Ok? <==> m.current in m.tools
    ensures r.Ok? ==> r.value == m.tools[m.current].spindleReadingPwm
  {
    match ToolAt(m, m.current)
    case Ok(tool) => Ok(tool.spindleReadingPwm)
    case Err(e) => Err(e)
  }

  /** getSpindleSpeedPWM(toolhead) as evidently intended: the reading of the addressed tool. */
  function GetSpindleSpeedPWM(m: Machine, toolhead: Int32): (r: Result<Int32>)
    ensures r.Ok? <==> Resolve(m, toolhead) in m.tools
    ensures r.Ok? ==> r.value == m.tools[Resolve(m, toolhead)].spindleReadingPwm
  {
    match ToolAt(m, Resolve(m, toolhead))
    case Ok(tool) => Ok(tool.spindleReadingPwm)
    case Err(e) => Err(e)
  }

  /** The corrected query agrees with the sibling getSpindleRPM on which tool it reads. */
  lemma SpindleQueriesAgree(m: Machine, toolhead: Int32)
    ensures GetSpindleSpeedPWM(m, toolhead).Ok? <==> GetSpindleRPM(m, toolhead).Ok?
    ensures GetSpindleSpeedPWM(m, toolhead).Ok? ==> GetSpindleSpeedPWM(m, toolhead) == GetSpindleSpeedPWMAsWritten(m, Commands.CurrentTool) || Resolve(m, toolhead) != m.current
  {
  }

  const SampleTool: Tool := Tool(C.MotorClockwise, 0.0, 0, false, C.MotorClockwise, 0.0, 0, false,
                                 0.0, 0, 0.0, 0.0, false, false, false, false, false, false)

  /**
   * Two tools whose spindle PWM readings differ, tool 0 current: asking for
   * tool 1 returns tool 0's reading as written, tool 1's once corrected.
   */
  lemma SpindleSpeedPWMReadsWrongTool()
    ensures var m := Machine(map[0 := SampleTool, 1 := SampleTool.(spindleReadingPwm := 255)], 0, map[]);
            WellFormed(m) &&
            GetSpindleSpeedPWMAsWritten(m, 1) == Ok(0) &&
            GetSpindleSpeedPWM(m, 1) == Ok(255)
  {
  }

  /** getTemperature(toolhead): the current temperature of the addressed tool. */
  function GetTemperature(m: Machine, toolhead: Int32): (r: Result<real>)
    ensures r.Ok? <==> Resolve(m, toolhead) in m.tools
    ensures r.Ok? ==> r.value == ReadingsOf(m, Resolve(m, toolhead)).currentTemperature
  {
    match ToolAt(m, Resolve(m, toolhead))
    case Ok(_) => Ok(ReadingsOf(m, Resolve(m, toolhead)).currentTemperature)
    case Err(e) => Err(e)
  }

  /** getPlatformTemperature(toolhead) of the base driver: the addressed tool's platform reading. */
  function GetPlatformTemperature(m: Machine, toolhead: Int32): (r: Result<real>)
    ensures r.Ok? <==> Resolve(m, toolhead) in m.tools
    ensures r.Ok? ==> r.value == ReadingsOf(m, Resolve(m, toolhead)).platformCurrentTemperature
  {
    match ToolAt(m, Resolve(m, toolhead))
    case Ok(_) => Ok(ReadingsOf(m, Resolve(m, toolhead)).platformCurrentTemperature)
    case Err(e) => Err(e)
  }

  /** A setter followed by its getter: the temperature set for a tool is its target. */
  lemma SetTemperatureSetsTarget(m: Machine, v: real, toolhead: Int32)
    requires Resolve(m, toolhead) in m.tools
    ensures PerformOn(m, C.SetTemperature(v, toolhead)).Ok?
    ensures PerformOn(m, C.SetTemperature(v, toolhead)).value.tools[Resolve(m, toolhead)].targetTemperature == v
  {
  }

  // ---------------------------------------------------------------------------
  // The driver object

  /** The outcome of reconcilePosition(): a point, a RetryException, or the base class's RuntimeException. */
  datatype Reconcile = Reconciled(point: Point5d) | RetryFailed | NotImplemented

  const ReconcileMessage: string := "Position reconcilliation requested, but not implemented for this driver"

  const OffsetCount: nat := 7

  class DriverCore {
    var machine: Machine
    var firmwareName: string
    var version: Version
    var preferredVersion: Version
    var minimumVersion: Version
    const offsets: array<Point3d>
    var initialized: bool
    var errors: seq<DriverError>
    var feedrate: real
    /** The cached position; None when it is lost. */
    var position: Option<Point5d>

    predicate Valid()
      reads this`machine
    {
      offsets.Length == OffsetCount && WellFormed(machine)
    }

    /** DriverBaseImplementation(): seven zero offsets, no errors, uninitialised, position lost. */
    constructor(m: Machine)
      requires WellFormed(m)
      ensures Valid() && fresh(offsets)
      ensures machine == m && !initialized && errors == [] && position.None? && feedrate == 0.0
      ensures firmwareName == "Unknown"
      ensures version == Version(0, 0) && preferredVersion == Version(0, 0) && minimumVersion == Version(0, 0)
      ensures forall i :: 0 <= i < OffsetCount ==> offsets[i] == Origin3
    {
      var table := new Point3d[OffsetCount];
      for i := 0 to OffsetCount
        invariant forall k :: 0 <= k < i ==> table[k] == Origin3
      {
        table[i] := Origin3;
      }
      offsets := table;
      machine := m;
      firmwareName := "Unknown";
      version := Version(0, 0);
      preferredVersion := Version(0, 0);
      minimumVersion := Version(0, 0);
      initialized := false;
      errors := [];
      feedrate := 0.0;
      position := None;
    }

    // Initialisation

    /** setInitialized: clearing the flag also forgets the position; setting it keeps the position. */
    method SetInitialized(status: bool)
      modifies this`initialized, this`position
      ensures initialized == status
      ensures position == (if status then old(position) else None)
    {
      initialized := status;
      if !status {
        InvalidatePosition();
      }
    }

    method Initialize()
      modifies this`initialized, this`position
      ensures initialized && position == old(position)
    {
      SetInitialized(true);
    }

    method Uninitialize()
      modifies this`initialized, this`position
      ensures !initialized && position.None?
    {
      SetInitialized(false);
    }

    // The error queue

    /** setError(DriverError): append to the queue. */
    method SetError(e: DriverError)
      modifies this`errors
      ensures errors == old(errors) + [e]
    {
      errors := errors + [e];
    }

    /** setError(String): append a fatal error with that message. */
    method SetErrorMessage(message: string)
      modifies this`errors
      ensures errors == old(errors) + [DriverError(message, true)]
    {
      SetError(DriverError(message, true));
    }

    /** hasError: the queue is not empty. */
    function HasError(): (r: bool)
      reads this
      ensures r <==> errors != []
    {
      |errors| > 0
    }

    /** getError: remove and return the oldest error; NoSuchElementException when there is none. */
    method GetError() returns (r: Result<DriverError>)
      modifies this
      ensures old(errors) == [] ==> r == Err(NoSuchElement) && errors == old(errors)
      ensures old(errors) != [] ==> r == Ok(old(errors)[0]) && errors == old(errors)[1..]
      ensures machine == old(machine) && initialized == old(initialized) && position == old(position)
      ensures feedrate == old(feedrate) && firmwareName == old(firmwareName) && version == old(version)
      ensures preferredVersion == old(preferredVersion) && minimumVersion == old(minimumVersion)
    {
      if |errors| == 0 {
        return Err(NoSuchElement);
      }
      r := Ok(errors[0]);
      errors := errors[1..];
    }

    /** checkErrors: when an error is queued, remove the oldest and throw BuildFailureException with its message. */
    method CheckErrors() returns (s: Status)
      modifies this
      ensures old(errors) == [] ==> s == Done && errors == old(errors)
      ensures old(errors) != [] ==> s == Thrown(BuildFailure(old(errors)[0].message)) && errors == old(errors)[1..]
      ensures machine == old(machine) && initialized == old(initialized) && position == old(position)
      ensures feedrate == old(feedrate) && firmwareName == old(firmwareName) && version == old(version)
      ensures preferredVersion == old(preferredVersion) && minimumVersion == old(minimumVersion)
    {
      if |errors| > 0 {
        var e := GetError();
        return Thrown(BuildFailure(e.value.message));
      }
      return Done;
    }

    // Firmware information

    /** getFirmwareInfo: the firmware name, " v", then the version. */
    function FirmwareInfo(): (r: string)
      reads this
      ensures StartsWith(r, firmwareName + " v")
      ensures r[|firmwareName| + 2..] == ToString(version)
    {
      firmwareName + " v" + ToString(version)
    }

    // Offsets

    /** getOffset(i); an index outside the table throws ArrayIndexOutOfBoundsException. */
    function GetOffset(i: Int32): (r: Result<Point3d>)
      reads this, offsets
      ensures r.Ok? <==> 0 <= i < offsets.Length
      ensures r.Ok? ==> r.value == offsets[i]
      ensures r.Err? ==> r.error == IndexOutOfBounds(i)
    {
      if 0 <= i < offsets.Length then Ok(offsets[i]) else Err(IndexOutOfBounds(i))
    }

    /** setOffsetX: only the x coordinate of entry i changes. */
    method SetOffsetX(i: Int32, v: real) returns (s: Status)
      requires Valid()
      modifies offsets
      ensures s == (if 0 <= i < OffsetCount then Done else Thrown(IndexOutOfBounds(i)))
      ensures forall k :: 0 <= k < OffsetCount ==>
                offsets[k] == (if k == i then old(offsets[k]).(x := v) else old(offsets[k]))
    {
      if !(0 <= i < offsets.Length) {
        return Thrown(IndexOutOfBounds(i));
      }
      offsets[i] := offsets[i].(x := v);
      return Done;
    }

    /** setOffsetY: only the y coordinate of entry i changes. */
    method SetOffsetY(i: Int32, v: real) returns (s: Status)
      requires Valid()
      modifies offsets
      ensures s == (if 0 <= i < OffsetCount then Done else Thrown(IndexOutOfBounds(i)))
      ensures forall k :: 0 <= k < OffsetCount ==>
                offsets[k] == (if k == i then old(offsets[k]).(y := v) else old(offsets[k]))
    {
      if !(0 <= i < offsets.Length) {
        return Thrown(IndexOutOfBounds(i));
      }
      offsets[i] := offsets[i].(y := v);
      return Done;
    }

    /** setOffsetZ: only the z coordinate of entry i changes. */
    method SetOffsetZ(i: Int32, v: real) returns (s: Status)
      requires Valid()
      modifies offsets
      ensures s == (if 0 <= i < OffsetCount then Done else Thrown(IndexOutOfBounds(i)))
      ensures forall k :: 0 <= k < OffsetCount ==>
                offsets[k] == (if k == i then old(offsets[k]).(z := v) else old(offsets[k]))
    {
      if !(0 <= i < offsets.Length) {
        return Thrown(IndexOutOfBounds(i));
      }
      offsets[i] := offsets[i].(z := v);
      return Done;
    }

    // Position

    /** positionLost: there is no cached position. */
    predicate PositionLost()
      reads this
    {
      position.None?
    }

    /** setInternalPosition; None stands for null. */
    method SetInternalPosition(p: Option<Point5d>)
      modifies this`position
      ensures position == p
    {
      position := p;
    }

    /** invalidatePosition: forget the cached position. */
    method InvalidatePosition()
      modifies this`position
      ensures PositionLost()
    {
      SetInternalPosition(None);
    }

    /**
     * getCurrentPosition(forceUpdate): reconcile only when the position is
     * lost or an update is forced; a reconciled point replaces the cache, a
     * RetryException leaves it as it was, and the base class's
     * RuntimeException escapes. The result is the cache, or the zero point
     * when the position is still lost.
     */
    method GetCurrentPosition(forceUpdate: bool, reconcile: Reconcile) returns (r: Result<Point5d>)
      modifies this
      ensures var asked := old(position).None? || forceUpdate;
              position == (if asked && reconcile.Reconciled? then Some(reconcile.point) else old(position))
      ensures (old(position).None? || forceUpdate) && reconcile.NotImplemented? ==> r == Err(Runtime(ReconcileMessage))
      ensures !((old(position).None? || forceUpdate) && reconcile.NotImplemented?) ==>
                r == Ok(if position.Some? then position.value else Origin5)
      ensures machine == old(machine) && initialized == old(initialized) && errors == old(errors)
      ensures feedrate == old(feedrate) && firmwareName == old(firmwareName) && version == old(version)
      ensures preferredVersion == old(preferredVersion) && minimumVersion == old(minimumVersion)
    {
      if PositionLost() || forceUpdate {
        match reconcile
        case Reconciled(p) => SetInternalPosition(Some(p));
        case RetryFailed =>
        case NotImplemented => return Err(Runtime(ReconcileMessage));
      }
      if PositionLost() {
        return Ok(Origin5);
      }
      return Ok(position.value);
    }

    // Calls on the machine

    /**
     * The base driver's handling of a driver call: queuePoint and
     * setCurrentPosition store the point, setFeedrate the feedrate, the tool
     * calls update the machine (see PerformOn), and every other call leaves
     * the state alone.
     */
    method Perform(call: C.DriverCall) returns (s: Status)
      requires Valid()
      modifies this`machine, this`position, this`feedrate
      ensures Valid()
      ensures PerformOn(old(machine), call).Ok? ==> s == Done && machine == PerformOn(old(machine), call).value
      ensures PerformOn(old(machine), call).Err? ==> s == Thrown(PerformOn(old(machine), call).error) && machine == old(machine)
      ensures position == (if call.QueuePoint? || call.SetCurrentPosition? then Some(call.point) else old(position))
      ensures feedrate == (if call.SetFeedrate? then call.feed else old(feedrate))
    {
      match call {
        case QueuePoint(p) => SetInternalPosition(Some(p));
        case SetCurrentPosition(p) => SetInternalPosition(Some(p));
        case SetFeedrate(f) => feedrate := f;
        case _ =>
      }
      PerformKeepsWellFormed(machine, call);
      match PerformOn(machine, call) {
        case Ok(m) =>
          machine := m;
          s := Done;
        case Err(e) =>
          s := Thrown(e);
      }
    }
  }
}
