/**
 * The web client's header bar (WebHeader.tsx): the connection label and colour
 * shown next to the page title.
 */
module WebHeader {
  import opened Wrappers
  import Theme

  datatype ConnectionStatus = ConnectionStatus(text: string, color: string)

  const DISCONNECTED := ConnectionStatus("Disconnected", "#444444")
  const STRONG := ConnectionStatus("Strong Connection", "#42BC2B")
  const WEAK := ConnectionStatus("Weak Connection", "#BEC91F")
  const CONNECTED := ConnectionStatus("Connected", "#1F4FCE")

  /** JavaScript truthiness of an optional number: null, undefined and 0 are false. */
  predicate Truthy(rssi: Option<int>) {
    rssi.Some? && rssi.value != 0
  }

  /**
   * getConnectionStatus: "Disconnected" without a connection; with one, a
   * truthy rssi above -60 is strong, above -80 weak, and anything else, a
   * missing or zero rssi included, is plain "Connected".
   */
  function GetConnectionStatus(isConnected: bool, rssi: Option<int>): (s: ConnectionStatus)
    ensures !isConnected ==> s == DISCONNECTED
    ensures isConnected && Truthy(rssi) && rssi.value > -60 ==> s == STRONG
    ensures isConnected && Truthy(rssi) && -80 < rssi.value <= -60 ==> s == WEAK
    ensures isConnected && (!Truthy(rssi) || rssi.value <= -80) ==> s == CONNECTED
    ensures s.text != "No Connection"
  {
    if !isConnected then DISCONNECTED
    else if Truthy(rssi) && rssi.value > -60 then STRONG
    else if Truthy(rssi) && rssi.value > -80 then WEAK
    else CONNECTED
  }

  /**
   * Where the header and the shared getBluetoothStatus differ: for a non-zero
   * rssi they agree on strong and weak, the shared helper's "No Connection" is
   * "Connected" here, a missing rssi while connected is "Connected" rather than
   * "Disconnected", and an rssi of exactly 0 is "Connected" rather than strong.
   */
  lemma AgreesWithThemeExceptWeakSignals(isConnected: bool, rssi: Option<int>)
    ensures var header := GetConnectionStatus(isConnected, rssi);
      var shared := Theme.GetBluetoothStatus(rssi, isConnected).level;
      && (header == DISCONNECTED <==> !isConnected)
      && (isConnected && Truthy(rssi) ==>
            (header == STRONG <==> shared == Theme.Strong)
            && (header == WEAK <==> shared == Theme.Weak)
            && (header == CONNECTED <==> shared == Theme.NoConnection))
      && (isConnected && rssi == Some(0) ==> header == CONNECTED && shared == Theme.Strong)
      && (isConnected && rssi.None? ==> header == CONNECTED && shared == Theme.Disconnected)
  {
  }
}
