/**
 * The calls a driver accepts (the shape of replicatorg.drivers.Driver) that
 * the modelled core issues or implements, as values: a command's `run` is
 * the one call it makes, and the drivers interpret calls.
 */
module Capability {
  import opened Common

  /** ToolModel.MOTOR_CLOCKWISE and ToolModel.MOTOR_COUNTER_CLOCKWISE. */
  datatype MotorDirection = MotorClockwise | MotorCounterClockwise

  /** AxisId, in declaration order (the iteration order of an EnumSet). */
  datatype Axis = X | Y | Z | A | B

  datatype DriverCall =
    | QueuePoint(point: Point5d)
    | SetCurrentPosition(point: Point5d)
    | HomeAxes(axes: set<Axis>)
    | Delay(millis: Int64)
    | OpenClamp(clamp: Int32)
    | CloseClamp(clamp: Int32)
    | EnableDrives
    | DisableDrives
    | ChangeGearRatio(ratio: Int32)
    | SetFeedrate(feed: real)
    | SetMotorDirection(direction: MotorDirection, toolhead: Int32)
    | SetMotorRPM(rpm: real, toolhead: Int32)
    | SetMotorSpeedPWM(pwm: Int32, toolhead: Int32)
    | EnableMotor(toolhead: Int32)
    | EnableMotorFor(millis: Int64, toolhead: Int32)
    | DisableMotor(toolhead: Int32)
    | SetSpindleDirection(direction: MotorDirection, toolhead: Int32)
    | SetSpindleRPM(rpm: real, toolhead: Int32)
    | SetSpindleSpeedPWM(pwm: Int32, toolhead: Int32)
    | EnableSpindle(toolhead: Int32)
    | DisableSpindle(toolhead: Int32)
    | SetTemperature(temperature: real, toolhead: Int32)
    | ReadTemperature(toolhead: Int32)
    | SetPlatformTemperature(temperature: real, toolhead: Int32)
    | EnableFloodCoolant
    | DisableFloodCoolant
    | EnableMistCoolant
    | DisableMistCoolant
    | EnableFan(toolhead: Int32)
    | DisableFan(toolhead: Int32)
    | SetAutomatedBuildPlatformRunning(state: bool, toolhead: Int32)
    | OpenValve(toolhead: Int32)
    | CloseValve(toolhead: Int32)
    | OpenCollet
    | CloseCollet

  /** The toolhead argument of a call, when it has one. */
  function ToolheadOf(call: DriverCall): Option<Int32>
  {
    match call
    case SetMotorDirection(_, t) => Some(t)
    case SetMotorRPM(_, t) => Some(t)
    case SetMotorSpeedPWM(_, t) => Some(t)
    case EnableMotor(t) => Some(t)
    case EnableMotorFor(_, t) => Some(t)
    case DisableMotor(t) => Some(t)
    case SetSpindleDirection(_, t) => Some(t)
    case SetSpindleRPM(_, t) => Some(t)
    case SetSpindleSpeedPWM(_, t) => Some(t)
    case EnableSpindle(t) => Some(t)
    case DisableSpindle(t) => Some(t)
    case SetTemperature(_, t) => Some(t)
    case ReadTemperature(t) => Some(t)
    case SetPlatformTemperature(_, t) => Some(t)
    case EnableFan(t) => Some(t)
    case DisableFan(t) => Some(t)
    case SetAutomatedBuildPlatformRunning(_, t) => Some(t)
    case OpenValve(t) => Some(t)
    case CloseValve(t) => Some(t)
    case _ => None
  }
}
