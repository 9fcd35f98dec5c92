/**
 * The operation objects of replicatorg.drivers.commands: each is built once
 * (tool indices checked by Preconditions.checkNonNegative, except in the
 * deprecated constructors, which store the current-tool sentinel -1) and its
 * `run` makes exactly one driver call with the stored values.
 */
module Commands {
  import opened Common
  import Preconditions
  import C = Capability

  /** replicatorg.drivers.commands.AxialDirection. */
  datatype AxialDirection = Clockwise | CounterClockwise

  /** The tool index that asks the driver to use its current tool. */
  const CurrentTool: Int32 := -1

  const ToolMessage: string := "Tool indices should not be negative"

  datatype Command =
    | CloseValve(tool: Int32)
    | OpenValve(tool: Int32)
    | Delay(millis: Int64)
    | DisableFan(tool: Int32)
    | EnableFan(tool: Int32)
    | DisableMotor(tool: Int32)
    | DisableSpindle(tool: Int32)
    | EnableSpindle(tool: Int32)
    | EnableExtruderMotor(millis: Int64, tool: Int32)
    | SetMotorDirection(direction: AxialDirection, tool: Int32)
    | SetSpindleDirection(direction: AxialDirection, tool: Int32)
    | SetMotorSpeedPWM(pwm: Int32, tool: Int32)
    | SetMotorSpeedRPM(rpm: real, tool: Int32)
    | SetSpindleRPM(rpm: real, tool: Int32)
    | SetTemperature(temperature: real, tool: Int32)
    | SetPlatformTemperature(temperature: real, tool: Int32)
    | ToggleAutomatedBuildPlatform(state: bool, tool: Int32)

  /** Every operation but Delay addresses a tool. */
  predicate HasTool(c: Command)
  {
    !c.Delay?
  }

  // ---------------------------------------------------------------------------
  // Constructors

  /**
   * The checked constructors: the tool index goes through checkNonNegative;
   * a negative one throws IllegalArgumentException and nothing is built.
   */
  function WithTool(toolIndex: Int32, build: Int32 -> Command): (r: Result<Command>)
    ensures r.Ok? <==> toolIndex >= 0
    ensures r.Ok? ==> r.value == build(toolIndex)
    ensures r.Err? ==> r.error == IllegalArgument(ToolMessage)
  {
    match Preconditions.CheckNonNegative(toolIndex, ToolMessage)
    case Ok(t) => Ok(build(t))
    case Err(e) => Err(e)
  }

  function NewCloseValve(toolIndex: Int32): (r: Result<Command>)
    ensures r.Ok? <==> toolIndex >= 0
    ensures r.Ok? ==> r.value == CloseValve(toolIndex)
    ensures r.Err? ==> r.error == IllegalArgument(ToolMessage)
  {
    WithTool(toolIndex, (t: Int32) => CloseValve(t))
  }

  /** The deprecated no-argument constructor: the current tool. */
  function NewCloseValveCurrent(): (c: Command)
    ensures c.CloseValve? && c.tool == CurrentTool
  {
    CloseValve(CurrentTool)
  }

  function NewOpenValve(toolIndex: Int32): (r: Result<Command>)
    ensures r.Ok? <==> toolIndex >= 0
    ensures r.Ok? ==> r.value == OpenValve(toolIndex)
    ensures r.Err? ==> r.error == IllegalArgument(ToolMessage)
  {
    WithTool(toolIndex, (t: Int32) => OpenValve(t))
  }

  /** The deprecated no-argument constructor: the current tool. */
  function NewOpenValveCurrent(): (c: Command)
    ensures c.OpenValve? && c.tool == CurrentTool
  {
    OpenValve(CurrentTool)
  }

  /** Delay accepts any long, negative values included, and never throws. */
  function NewDelay(millis: Int64): (c: Command)
    ensures c.Delay? && c.millis == millis
  {
    Delay(millis)
  }

  function NewDisableFan(toolhead: Int32): (r: Result<Command>)
    ensures r.Ok? <==> toolhead >= 0
    ensures r.Ok? ==> r.value == DisableFan(toolhead)
    ensures r.Err? ==> r.error == IllegalArgument(ToolMessage)
  {
    WithTool(toolhead, (t: Int32) => DisableFan(t))
  }

  function NewEnableFan(toolhead: Int32): (r: Result<Command>)
    ensures r.Ok? <==> toolhead >= 0
    ensures r.Ok? ==> r.value == EnableFan(toolhead)
    ensures r.Err? ==> r.error == IllegalArgument(ToolMessage)
  {
    WithTool(toolhead, (t: Int32) => EnableFan(t))
  }

  function NewDisableMotor(toolhead: Int32): (r: Result<Command>)
    ensures r.Ok? <==> toolhead >= 0
    ensures r.Ok? ==> r.value == DisableMotor(toolhead)
    ensures r.Err? ==> r.error == IllegalArgument(ToolMessage)
  {
    WithTool(toolhead, (t: Int32) => DisableMotor(t))
  }

  function NewDisableSpindle(toolIndex: Int32): (r: Result<Command>)
    ensures r.Ok? <==> toolIndex >= 0
    ensures r.Ok? ==> r.value == DisableSpindle(toolIndex)
    ensures r.Err? ==> r.error == IllegalArgument(ToolMessage)
  {
    WithTool(toolIndex, (t: Int32) => DisableSpindle(t))
  }

  function NewEnableSpindle(toolIndex: Int32): (r: Result<Command>)
    ensures r.Ok? <==> toolIndex >= 0
    ensures r.Ok? ==> r.value == EnableSpindle(toolIndex)
    ensures r.Err? ==> r.error == IllegalArgument(ToolMessage)
  {
    WithTool(toolIndex, (t: Int32) => EnableSpindle(t))
  }

  /** The timed constructor: `millis` is stored unchecked, the toolhead is checked. */
  function NewEnableExtruderMotorFor(millis: Int64, toolhead: Int32): (r: Result<Command>)
    ensures r.Ok? <==> toolhead >= 0
    ensures r.Ok? ==> r.value == EnableExtruderMotor(millis, toolhead)
    ensures r.Err? ==> r.error == IllegalArgument(ToolMessage)
  {
    WithTool(toolhead, (t: Int32) => EnableExtruderMotor(millis, t))
  }

  /** The one-argument constructor delegates with millis = 0: an untimed enable. */
  function NewEnableExtruderMotor(toolhead: Int32): (r: Result<Command>)
    ensures r.Ok? <==> toolhead >= 0
    ensures r.Ok? ==> r.value == EnableExtruderMotor(0, toolhead)
    ensures r.Err? ==> r.error == IllegalArgument(ToolMessage)
  {
    NewEnableExtruderMotorFor(0, toolhead)
  }

  function NewSetMotorDirection(direction: AxialDirection, toolhead: Int32): (r: Result<Command>)
    ensures r.Ok? <==> toolhead >= 0
    ensures r.Ok? ==> r.value == SetMotorDirection(direction, toolhead)
    ensures r.Err? ==> r.error == IllegalArgument(ToolMessage)
  {
    WithTool(toolhead, (t: Int32) => SetMotorDirection(direction, t))
  }

  function NewSetSpindleDirection(direction: AxialDirection, toolIndex: Int32): (r: Result<Command>)
    ensures r.Ok? <==> toolIndex >= 0
    ensures r.Ok? ==> r.value == SetSpindleDirection(direction, toolIndex)
    ensures r.Err? ==> r.error == IllegalArgument(ToolMessage)
  {
    WithTool(toolIndex, (t: Int32) => SetSpindleDirection(direction, t))
  }

  /** The deprecated one-argument constructor: the current tool. */
  function NewSetSpindleDirectionCurrent(direction: AxialDirection): (c: Command)
    ensures c.SetSpindleDirection? && c.direction == direction && c.tool == CurrentTool
  {
    SetSpindleDirection(direction, CurrentTool)
  }

  function NewSetMotorSpeedPWM(pwm: Int32, toolhead: Int32): (r: Result<Command>)
    ensures r.Ok? <==> toolhead >= 0
    ensures r.Ok? ==> r.value == SetMotorSpeedPWM(pwm, toolhead)
    ensures r.Err? ==> r.error == IllegalArgument(ToolMessage)
  {
    WithTool(toolhead, (t: Int32) => SetMotorSpeedPWM(pwm, t))
  }

  function NewSetMotorSpeedRPM(rpm: real, toolhead: Int32): (r: Result<Command>)
    ensures r.Ok? <==> toolhead >= 0
    ensures r.Ok? ==> r.value == SetMotorSpeedRPM(rpm, toolhead)
    ensures r.Err? ==> r.error == IllegalArgument(ToolMessage)
  {
    WithTool(toolhead, (t: Int32) => SetMotorSpeedRPM(rpm, t))
  }

  function NewSetSpindleRPM(rpm: real, toolIndex: Int32): (r: Result<Command>)
    ensures r.Ok? <==> toolIndex >= 0
    ensures r.Ok? ==> r.value == SetSpindleRPM(rpm, toolIndex)
    ensures r.Err? ==> r.error == IllegalArgument(ToolMessage)
  {
    WithTool(toolIndex, (t: Int32) => SetSpindleRPM(rpm, t))
  }

  /** The deprecated one-argument constructor: the current tool. */
  function NewSetSpindleRPMCurrent(rpm: real): (c: Command)
    ensures c.SetSpindleRPM? && c.rpm == rpm && c.tool == CurrentTool
  {
    SetSpindleRPM(rpm, CurrentTool)
  }

  function NewSetTemperature(temperature: real, toolIndex: Int32): (r: Result<Command>)
    ensures r.Ok? <==> toolIndex >= 0
    ensures r.Ok? ==> r.value == SetTemperature(temperature, toolIndex)
    ensures r.Err? ==> r.error == IllegalArgument(ToolMessage)
  {
    WithTool(toolIndex, (t: Int32) => SetTemperature(temperature, t))
  }

  function NewSetPlatformTemperature(temperature: real, toolIndex: Int32): (r: Result<Command>)
    ensures r.Ok? <==> toolIndex >= 0
    ensures r.Ok? ==> r.value == SetPlatformTemperature(temperature, toolIndex)
    ensures r.Err? ==> r.error == IllegalArgument(ToolMessage)
  {
    WithTool(toolIndex, (t: Int32) => SetPlatformTemperature(temperature, t))
  }

  function NewToggleAutomatedBuildPlatform(state: bool, toolhead: Int32): (r: Result<Command>)
    ensures r.Ok? <==> toolhead >= 0
    ensures r.Ok? ==> r.value == ToggleAutomatedBuildPlatform(state, toolhead)
    ensures r.Err? ==> r.error == IllegalArgument(ToolMessage)
  {
    WithTool(toolhead, (t: Int32) => ToggleAutomatedBuildPlatform(state, t))
  }

  /** The same operation addressed to tool `k` instead. */
  function Retargeted(c: Command, k: Int32): (r: Command)
    requires HasTool(c)
    ensures r == c.(tool := k)
  {
    match c
    case CloseValve(_) => CloseValve(k)
    case OpenValve(_) => OpenValve(k)
    case DisableFan(_) => DisableFan(k)
    case EnableFan(_) => EnableFan(k)
    case DisableMotor(_) => DisableMotor(k)
    case DisableSpindle(_) => DisableSpindle(k)
    case EnableSpindle(_) => EnableSpindle(k)
    case EnableExtruderMotor(x, _) => EnableExtruderMotor(x, k)
    case SetMotorDirection(x, _) => SetMotorDirection(x, k)
    case SetSpindleDirection(x, _) => SetSpindleDirection(x, k)
    case SetMotorSpeedPWM(x, _) => SetMotorSpeedPWM(x, k)
    case SetMotorSpeedRPM(x, _) => SetMotorSpeedRPM(x, k)
    case SetSpindleRPM(x, _) => SetSpindleRPM(x, k)
    case SetTemperature(x, _) => SetTemperature(x, k)
    case SetPlatformTemperature(x, _) => SetPlatformTemperature(x, k)
    case ToggleAutomatedBuildPlatform(x, _) => ToggleAutomatedBuildPlatform(x, k)
  }

  // ---------------------------------------------------------------------------
  // run

  function MotorDirectionOf(d: AxialDirection): C.MotorDirection
  {
    if d == Clockwise then C.MotorClockwise else C.MotorCounterClockwise
  }

  /**
   * The single driver call a command's `run` makes. The direction commands
   * pass MOTOR_CLOCKWISE for CLOCKWISE and MOTOR_COUNTER_CLOCKWISE for any
   * other direction; EnableExtruderMotor uses the timed enableMotor exactly
   * when millis != 0.
   */
  function Run(c: Command): (call: C.DriverCall)
    ensures HasTool(c) ==> C.ToolheadOf(call) == Some(c.tool)
    ensures c.Delay? ==> call == C.Delay(c.millis)
    ensures c.EnableExtruderMotor? ==> (call.EnableMotorFor? <==> c.millis != 0)
    ensures c.SetMotorDirection? ==> call.SetMotorDirection? && (call.direction == C.MotorClockwise <==> c.direction == Clockwise)
    ensures c.SetSpindleDirection? ==> call.SetSpindleDirection? && (call.direction == C.MotorClockwise <==> c.direction == Clockwise)
  {
    match c
    case CloseValve(t) => C.CloseValve(t)
    case OpenValve(t) => C.OpenValve(t)
    case Delay(m) => C.Delay(m)
    case DisableFan(t) => C.DisableFan(t)
    case EnableFan(t) => C.EnableFan(t)
    case DisableMotor(t) => C.DisableMotor(t)
    case DisableSpindle(t) => C.DisableSpindle(t)
    case EnableSpindle(t) => C.EnableSpindle(t)
    case EnableExtruderMotor(m, t) => if m != 0 then C.EnableMotorFor(m, t) else C.EnableMotor(t)
    case SetMotorDirection(d, t) => C.SetMotorDirection(MotorDirectionOf(d), t)
    case SetSpindleDirection(d, t) => C.SetSpindleDirection(MotorDirectionOf(d), t)
    case SetMotorSpeedPWM(p, t) => C.SetMotorSpeedPWM(p, t)
    case SetMotorSpeedRPM(r, t) => C.SetMotorRPM(r, t)
    case SetSpindleRPM(r, t) => C.SetSpindleRPM(r, t)
    case SetTemperature(v, t) => C.SetTemperature(v, t)
    case SetPlatformTemperature(v, t) => C.SetPlatformTemperature(v, t)
    case ToggleAutomatedBuildPlatform(s, t) => C.SetAutomatedBuildPlatformRunning(s, t)
  }

  /**
   * Reading a driver call back as the operation that makes it: an independent
   * decoding of Run, used to show that `run` passes on every stored value.
   */
  function CommandOf(call: C.DriverCall): Option<Command>
  {
    match call
    case CloseValve(t) => Some(CloseValve(t))
    case OpenValve(t) => Some(OpenValve(t))
    case Delay(m) => Some(Delay(m))
    case DisableFan(t) => Some(DisableFan(t))
    case EnableFan(t) => Some(EnableFan(t))
    case DisableMotor(t) => Some(DisableMotor(t))
    case DisableSpindle(t) => Some(DisableSpindle(t))
    case EnableSpindle(t) => Some(EnableSpindle(t))
    case EnableMotorFor(m, t) => if m != 0 then Some(EnableExtruderMotor(m, t)) else None
    case EnableMotor(t) => Some(EnableExtruderMotor(0, t))
    case SetMotorDirection(d, t) =>
      Some(SetMotorDirection(if d == C.MotorClockwise then Clockwise else CounterClockwise, t))
    case SetSpindleDirection(d, t) =>
      Some(SetSpindleDirection(if d == C.MotorClockwise then Clockwise else CounterClockwise, t))
    case SetMotorSpeedPWM(p, t) => Some(SetMotorSpeedPWM(p, t))
    case SetMotorRPM(r, t) => Some(SetMotorSpeedRPM(r, t))
    case SetSpindleRPM(r, t) => Some(SetSpindleRPM(r, t))
    case SetTemperature(v, t) => Some(SetTemperature(v, t))
    case SetPlatformTemperature(v, t) => Some(SetPlatformTemperature(v, t))
    case SetAutomatedBuildPlatformRunning(s, t) => Some(ToggleAutomatedBuildPlatform(s, t))
    case _ => None
  }

  /** `run` loses nothing: the call it makes determines the command completely. */
  lemma RunLosesNothing(c: Command)
    ensures CommandOf(Run(c)) == Some(c)
  {
  }

  /** Distinct commands make distinct calls. */
  lemma RunInjective(c: Command, d: Command)
    requires Run(c) == Run(d)
    ensures c == d
  {
    RunLosesNothing(c);
    RunLosesNothing(d);
  }
}
