/** Adapter discovery: which TAP adapter instance `findTapDevice` selects
    from a snapshot of the registry (tapWindows/tuntap.c, lines 68-175).

    The registry is an immutable value: the settings key, whether the
    network-adapter class key opens, the subkeys the class key enumerates, in
    enumeration order, and the network-connections namespace keyed by instance id. */
module Discovery {
  import opened Common

  const TAP_OAS_COMPONENT_ID: string := "tapoas"
  const TAP_V9_COMPONENT_ID: string := "tap0901"
  /** The two subkeys of the adapter class key that are not device instances. */
  const CONFIGURATION_KEY: string := "Configuration"
  const PROPERTIES_KEY: string := "Properties"

  /** The application key SOFTWARE\Lanemu: absent (it does not open), or open
      with its DWORD value TapDriver readable or not. */
  datatype Settings = NoAppKey | AppKey(tapDriver: Option<DWord>)

  /** The `<instance id>\Connection` key of the network-connections namespace,
      with its `Name` value when that value can be read. */
  datatype Connection = Connection(name: Option<string>)

  /** One subkey yielded by RegEnumKey on the adapter class key: its name,
      whether RegOpenKeyEx succeeds on it, and the ComponentId and
      NetCfgInstanceId values when they can be read. */
  datatype Entry = Entry(keyName: string, opens: bool,
                         componentId: Option<string>, instanceId: Option<string>)

  datatype Registry = Registry(settings: Settings, classKeyOpens: bool,
                               adapters: seq<Entry>,
                               connections: map<string, Connection>)

  /** What getDeviceName returns (0 or 1) and the contents of its deviceName
      out-buffer afterwards. */
  datatype NameLookup = NameLookup(status: int, deviceName: string)

  /** The outcome of a discovery pass: the selected instance id and its
      connection name, or nothing. */
  datatype Located = Found(deviceId: string, deviceName: string) | NotFound

  /** The component id the scan filters on: "tap0901" exactly when the
      TapDriver setting is read and non-zero, "tapoas" otherwise. */
  function ActiveFamily(s: Settings): (id: string)
    ensures id == TAP_V9_COMPONENT_ID <==> s.AppKey? && s.tapDriver.Some? && s.tapDriver.value != 0
    ensures id != TAP_V9_COMPONENT_ID ==> id == TAP_OAS_COMPONENT_ID
  {
    match s
    case AppKey(Some(v)) => if v != 0 then TAP_V9_COMPONENT_ID else TAP_OAS_COMPONENT_ID
    case _ => TAP_OAS_COMPONENT_ID
  }

  /** True when `id` names a connection whose Name is readable. */
  predicate HasName(conns: map<string, Connection>, id: string)
  {
    id in conns && conns[id].name.Some?
  }

  /** getDeviceName: resolve the connection name of instance `deviceId`,
      starting from the previous contents `deviceName` of the out-buffer. */
  function GetDeviceName(conns: map<string, Connection>, deviceId: string,
                         deviceName: string, specificName: Option<string>): (r: NameLookup)
    ensures r.status == 0 || r.status == 1
    ensures r.status == 0 <==>
              deviceId != "" && deviceId in conns && conns[deviceId].name.Some? &&
              (specificName.Some? ==> conns[deviceId].name.value == specificName.value)
    // the Name value lands in the buffer whenever it is read, even when the
    // name filter then rejects it; otherwise the buffer is left as it was
    ensures deviceId != "" && HasName(conns, deviceId) ==> r.deviceName == conns[deviceId].name.value
    ensures !(deviceId != "" && HasName(conns, deviceId)) ==> r.deviceName == deviceName
  {
    if deviceId == [] then NameLookup(1, deviceName)
    else if deviceId !in conns then NameLookup(1, deviceName)
    else
      match conns[deviceId].name
      case None => NameLookup(1, deviceName)
      case Some(name) =>
        if specificName.Some? && specificName.value != name then NameLookup(1, name)
        else NameLookup(0, name)
  }

  /** True when getDeviceName succeeds for `id`. */
  predicate Resolves(conns: map<string, Connection>, id: string, specificName: Option<string>)
  {
    GetDeviceName(conns, id, "", specificName).status == 0
  }

  /** A subkey the scan treats as a device instance. */
  predicate IsDeviceKey(keyName: string)
  {
    keyName != CONFIGURATION_KEY && keyName != PROPERTIES_KEY
  }

  /** The selection rule of findTapDevice's loop over the remaining subkeys
      `es`, with `skip` family-matching entries still to pass over. An entry
      whose NetCfgInstanceId cannot be read never resolves (see FindTapDevice,
      which keeps the stale id the source keeps). */
  function LocateFrom(es: seq<Entry>, family: string, conns: map<string, Connection>,
                      skip: int, specificName: Option<string>): (r: Located)
    decreases |es|
  {
    if es == [] then NotFound
    else
      var e := es[0];
      if !IsDeviceKey(e.keyName) then LocateFrom(es[1..], family, conns, skip, specificName)
      else if !e.opens then NotFound
      else if e.componentId != Some(family) then LocateFrom(es[1..], family, conns, skip, specificName)
      else if skip >= 1 then LocateFrom(es[1..], family, conns, skip - 1, specificName)
      else if e.instanceId.Some? && Resolves(conns, e.instanceId.value, specificName) then
        Found(e.instanceId.value, GetDeviceName(conns, e.instanceId.value, "", specificName).deviceName)
      else LocateFrom(es[1..], family, conns, skip, specificName)
  }

  /** What the scan returns is an instance id of the active family that
      resolves to a connection name, which passes the name filter. */
  lemma {:induction false} LocateFromSound(es: seq<Entry>, family: string, conns: map<string, Connection>,
                                           skip: int, specificName: Option<string>)
    ensures var r := LocateFrom(es, family, conns, skip, specificName);
            r.Found? ==> r.deviceId != "" && HasName(conns, r.deviceId) &&
                         conns[r.deviceId].name.value == r.deviceName &&
                         (specificName.Some? ==> r.deviceName == specificName.value) &&
                         exists k :: 0 <= k < |es| && es[k].componentId == Some(family) &&
                                     es[k].instanceId == Some(r.deviceId)
    decreases |es|
  {
    if es != [] {
      var r := LocateFrom(es, family, conns, skip, specificName);
      var skip' := if IsDeviceKey(es[0].keyName) && es[0].componentId == Some(family) && skip >= 1
                   then skip - 1 else skip;
      LocateFromSound(es[1..], family, conns, skip', specificName);
      if r.Found? && r != LocateFrom(es[1..], family, conns, skip', specificName) {
        assert es[0].instanceId == Some(r.deviceId);
      } else if r.Found? {
        var k :| 0 <= k < |es[1..]| && es[1..][k].componentId == Some(family) &&
                 es[1..][k].instanceId == Some(r.deviceId);
        assert es[k + 1] == es[1..][k];
      }
    }
  }

  /** The whole of findTapDevice as a function of the registry snapshot. */
  function Locate(reg: Registry, skip: int, specificName: Option<string>): Located
  {
    if !reg.classKeyOpens then NotFound
    else LocateFrom(reg.adapters, ActiveFamily(reg.settings), reg.connections, skip, specificName)
  }

  /** findTapDevice: the source's for-loop over the enumerated subkeys. It
      returns 0 with the selected id and name in its out-buffers, or 1. */
  method FindTapDevice(reg: Registry, skip0: int, specificName: Option<string>)
    returns (status: int, deviceId: string, deviceName: string)
    ensures status == 0 || status == 1
    ensures status == 0 <==> Locate(reg, skip0, specificName).Found?
    ensures status == 0 ==> Locate(reg, skip0, specificName) == Found(deviceId, deviceName)
  {
    var family := ActiveFamily(reg.settings);
    deviceId, deviceName := "", "";
    if !reg.classKeyOpens {
      return 1, deviceId, deviceName;
    }
    var es := reg.adapters;
    var conns := reg.connections;
    var skip := skip0;
    var valid := false;
    var i := 0;
    while !valid && i < |es|
      invariant 0 <= i <= |es|
      invariant valid ==> Locate(reg, skip0, specificName) == Found(deviceId, deviceName)
      invariant !valid ==> Locate(reg, skip0, specificName) == LocateFrom(es[i..], family, conns, skip, specificName)
      // a stale id left by an earlier candidate is one that did not resolve
      invariant !valid ==> !Resolves(conns, deviceId, specificName)
    {
      var e := es[i];
      assert es[i..][0] == e && es[i..][1..] == es[i + 1..];
      if e.keyName == CONFIGURATION_KEY || e.keyName == PROPERTIES_KEY {
        i := i + 1;
        continue;
      }
      if !e.opens {
        return 1, deviceId, deviceName;
      }
      if e.componentId.Some? && e.componentId.value == family {
        if skip < 1 {
          // the NetCfgInstanceId query's status is ignored: on failure the
          // buffer keeps the id it already held
          if e.instanceId.Some? {
            deviceId := e.instanceId.value;
          }
          var lookup := GetDeviceName(conns, deviceId, deviceName, specificName);
          deviceName := lookup.deviceName;
          if lookup.status == 0 {
            valid := true;
          }
        } else {
          skip := skip - 1;
        }
      }
      i := i + 1;
    }
    status := if valid then 0 else 1;
  }
}
