/**
 * Device status maps, command tuples, and the decision `device_action` makes before
 * posting a command: which value to send, or whether to give up.
 */
module Commands {

  datatype Option<T> = None | Some(value: T)

  /** A value in a device status map or in a command: a switch state or a number. */
  datatype Value = Bool(b: bool) | Int(n: int)

  /** What a status read returns: capability code to value; empty when the read failed. */
  type DeviceStatus = map<string, Value>

  /** Category tags. */
  const Fan: string := "fskg"
  const Light: string := "tdq"

  /** Capability codes. */
  const SwitchLight: string := "switch_1"
  const SwitchFan: string := "switch_fan"
  const FanSpeed: string := "fan_speed"

  /** One entry of a batch: (device id, capability code, value, force). */
  datatype Action = Action(devId: string, cmd: string, value: Value, force: bool)

  /** Python's `bool(v)`. */
  function Truthy(v: Value): bool {
    match v
    case Bool(b) => b
    case Int(n) => n != 0
  }

  /** Python's `int(v)`. */
  function AsInt(v: Value): int {
    match v
    case Bool(b) => if b then 1 else 0
    case Int(n) => n
  }

  /** `status.get(code, default)`. */
  function Get(status: DeviceStatus, code: string, default: Value): (v: Value)
    ensures code in status ==> v == status[code]
    ensures code !in status ==> v == default
  {
    if code in status then status[code] else default
  }

  /** A status read keyed by device id; a device without an entry read as a failed read. */
  function Fetch(polled: map<string, DeviceStatus>, devId: string): DeviceStatus {
    if devId in polled then polled[devId] else map[]
  }

  predicate IsSwitch(cmd: string) {
    cmd == SwitchLight || cmd == SwitchFan
  }

  /** The switch code a batch command uses for a category: only fans use "switch_fan". */
  function CommandSwitch(category: string): (cmd: string)
    ensures IsSwitch(cmd)
    ensures cmd == SwitchFan <==> category == Fan
  {
    if category == Fan then SwitchFan else SwitchLight
  }

  /** The switch code read from a status for a category: only lights use "switch_1". */
  function StatusSwitch(category: string): (cmd: string)
    ensures IsSwitch(cmd)
    ensures cmd == SwitchLight <==> category == Light
  {
    if category == Light then SwitchLight else SwitchFan
  }

  /** For the two real categories, reading and commanding use the same switch code. */
  lemma SwitchCodesAgree(category: string)
    requires category == Fan || category == Light
    ensures CommandSwitch(category) == StatusSwitch(category)
  {
  }

  /** The truth value a status holds for a code, a missing code reading as false. */
  function SwitchValueOf(status: DeviceStatus, cmd: string): bool {
    Truthy(Get(status, cmd, Bool(false)))
  }

  /** Whether the switch of a device in this category reads as on. */
  function SwitchValue(category: string, status: DeviceStatus): bool {
    SwitchValueOf(status, StatusSwitch(category))
  }

  /** What `device_action` does before the remote call: give up, or send a value. */
  datatype Decision = Skip | Send(value: Value)

  /**
   * The decision of `device_action`. `status` is what a status read would return; it is
   * consulted only for a switch command that is not forced. Such a command sends the
   * negation of the switch's current value (missing reads as false), and is skipped when
   * the read came back empty. "fan_speed" sends `int` of the caller's value, every other
   * code `bool` of the value decided on.
   */
  function Decide(cmd: string, value: Value, force: bool, status: DeviceStatus): (d: Decision)
    ensures d.Skip? <==> !force && IsSwitch(cmd) && status == map[]
    ensures d.Send? && cmd == FanSpeed ==> d.value == Int(AsInt(value))
    ensures d.Send? && cmd != FanSpeed ==> d.value.Bool?
    ensures d.Send? && !force && IsSwitch(cmd) ==> d.value == Bool(!SwitchValueOf(status, cmd))
    ensures d.Send? && (force || !IsSwitch(cmd)) && cmd != FanSpeed ==> d.value == Bool(Truthy(value))
  {
    if !force && IsSwitch(cmd) then
      if status == map[] then Skip
      else Send(Bool(!SwitchValueOf(status, cmd)))
    else if cmd != FanSpeed then Send(Bool(Truthy(value)))
    else Send(Int(AsInt(value)))
  }

  /** A forced command, or one that is not a switch, never depends on the status read. */
  lemma DecideSkipsReadWhenForced(cmd: string, value: Value, force: bool, s1: DeviceStatus, s2: DeviceStatus)
    requires force || !IsSwitch(cmd)
    ensures Decide(cmd, value, force, s1) == Decide(cmd, value, force, s2)
    ensures Decide(cmd, value, force, s1).Send?
  {
  }

  /** A forced switch command sends exactly the requested state. */
  lemma ForcedSwitchSendsRequest(cmd: string, state: bool, status: DeviceStatus)
    requires IsSwitch(cmd)
    ensures Decide(cmd, Bool(state), true, status) == Send(Bool(state))
  {
  }

  /** A toggle of a switch that reads `b` sends `!b`; one that reads nothing for its code sends true. */
  lemma ToggleNegatesCurrent(cmd: string, value: Value, status: DeviceStatus)
    requires IsSwitch(cmd) && status != map[]
    ensures cmd in status && status[cmd].Bool? ==> Decide(cmd, value, false, status) == Send(Bool(!status[cmd].b))
    ensures cmd !in status ==> Decide(cmd, value, false, status) == Send(Bool(true))
  {
  }

  /**
   * Toggling twice restores the switch: once the device has taken the value the first
   * toggle sent, the next toggle sends the value the switch had before.
   */
  lemma {:induction false} ToggleTwiceRestores(cmd: string, value: Value, status: DeviceStatus)
    requires IsSwitch(cmd) && status != map[]
    ensures Decide(cmd, value, false, status).Send?
    ensures var sent := Decide(cmd, value, false, status).value;
            Decide(cmd, value, false, status[cmd := sent]) == Send(Bool(SwitchValueOf(status, cmd)))
  {
    var sent := Decide(cmd, value, false, status).value;
    assert cmd in status[cmd := sent];
  }

  /**
   * The `last_state` a successful command leaves: the boolean sent for every code but
   * "fan_speed", which keeps the previous state (false when there was none).
   */
  function LastStateAfter(cmd: string, sent: Value, previous: Option<bool>): (on: bool)
    ensures cmd != FanSpeed ==> on == Truthy(sent)
    ensures cmd == FanSpeed && previous.Some? ==> on == previous.value
    ensures cmd == FanSpeed && previous.None? ==> !on
  {
    if cmd != FanSpeed then Truthy(sent)
    else match previous
      case Some(p) => p
      case None => false
  }
}
