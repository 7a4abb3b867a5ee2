/** Addressable actuators and command levels, as the hardware seam defines them. */
module Actuators {
  datatype Actuator = Heater | Fans | RoofVents | Misters | Co2Injector | GrowLights | ShadeScreen | IrrigationValve

  datatype ActuatorId = House(actuator: Actuator) | Valve(zone: string)

  function KindOf(id: ActuatorId): Actuator {
    if id.House? then id.actuator else IrrigationValve
  }

  type Commands = map<ActuatorId, real>

  function Clamp(v: real, lo: real, hi: real): real {
    if v < lo then lo else if v > hi then hi else v
  }

  /** The level commanded, 0 when the actuator is not mentioned. */
  function Get(cmd: Commands, id: ActuatorId): real {
    if id in cmd then cmd[id] else 0.0
  }

  function Set(cmd: Commands, id: ActuatorId, level: real): Commands {
    cmd[id := Clamp(level, 0.0, 100.0)]
  }
}
