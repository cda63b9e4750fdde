/**
 * A Bluetooth device as the Android client lists it during discovery
 * (BluetoothDeviceInfo.kt), with the name shown to the user.
 */
module BluetoothDevices {
  import opened Wrappers

  const UNKNOWN_DEVICE := "Unknown Device"

  /** Shortest signal reading Android reports; the discovery receiver treats it as "no reading". */
  const NO_RSSI: int := -32768

  datatype DeviceInfo = DeviceInfo(name: string, address: string, isPaired: bool, rssi: Option<int>)

  /** The data-class constructor with its default: a device built without a signal reading has none. */
  function NewDevice(name: string, address: string, isPaired: bool): (d: DeviceInfo)
    ensures d.rssi == None
    ensures d.name == name && d.address == address && d.isPaired == isPaired
  {
    DeviceInfo(name, address, isPaired, None)
  }

  /** displayName: the device's own name, or "Unknown Device" when that name is empty; never empty. */
  function DisplayName(d: DeviceInfo): (r: string)
    ensures |r| > 0
    ensures d.name != [] ==> r == d.name
    ensures d.name == [] ==> r == UNKNOWN_DEVICE
  {
    if d.name == [] then UNKNOWN_DEVICE else d.name
  }

  /**
   * The record the discovery receiver builds from a found device: a missing name
   * becomes "", and the sentinel signal value becomes "no reading".
   */
  function FoundDevice(name: Option<string>, address: string, bonded: bool, rawRssi: int): (d: DeviceInfo)
    ensures d.address == address && d.isPaired == bonded
    ensures d.rssi.None? <==> rawRssi == NO_RSSI
    ensures d.rssi.Some? ==> d.rssi.value == rawRssi
    ensures DisplayName(d) == if name.Some? && name.value != [] then name.value else UNKNOWN_DEVICE
  {
    DeviceInfo(
      if name.Some? then name.value else "",
      address,
      bonded,
      if rawRssi != NO_RSSI then Some(rawRssi) else None)
  }

  /** A bonded device as getPairedDevices lists it: paired, no signal reading. */
  function PairedDevice(name: Option<string>, address: string): (d: DeviceInfo)
    ensures d.isPaired && d.rssi == None && d.address == address
  {
    NewDevice(if name.Some? then name.value else "", address, true)
  }
}
