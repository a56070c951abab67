/**
 * The registry of open serial devices, keyed by MAC address (BluetoothManagerImpl
 * in its Java and Kotlin revisions). The Bluetooth transport is an oracle: each
 * open that misses the cache is told whether connecting succeeds.
 */
module Manager {
  import opened Common
  import opened Devices

  class BluetoothManager {
    /** ImplJava or ImplKotlin: they differ in whether closeDevice lets a close failure escape. */
    const revision: Revision

    var devices: map<string, BluetoothSerialDevice>

    /** The MAC addresses the transport was asked to connect to, in order. */
    ghost var connectAttempts: seq<string>

    /**
     * Every stored device is stored under its own MAC address, comes from this
     * revision and is open: only the registry closes devices, and it removes
     * them as it does.
     */
    ghost predicate Valid()
      reads this, devices.Values
    {
      && revision != LegacyJava
      && forall mac | mac in devices ::
           && devices[mac].mac == mac
           && devices[mac].revision == revision
           && devices[mac].Valid()
           && !devices[mac].closed
    }

    /** The objects the registry may change: the stored devices and the facades they own. */
    ghost function Repr(): set<object>
      reads this, devices.Values
    {
      (set d | d in devices.Values :: d as object)
        + (set d | d in devices.Values && d.owner != null :: d.owner as object)
    }

    constructor (revision: Revision)
      requires revision != LegacyJava
      ensures Valid() && this.revision == revision
      ensures devices == map[] && connectAttempts == []
    {
      this.revision := revision;
      devices := map[];
      connectAttempts := [];
    }

    /**
     * `openSerialDevice(mac, charset)`: a stored device is returned as it is,
     * without asking the transport and whatever `charset` says. Otherwise the
     * transport is asked to connect; on success a new device for `mac` and
     * `charset` is stored under `mac` and returned, on failure the cause comes
     * back wrapped in a BluetoothConnectException and nothing is stored.
     */
    method OpenSerialDevice(mac: string, charset: Charset, connect: Outcome<Cause>)
      returns (r: Result<BluetoothSerialDevice, BluetoothConnectException>)
      requires Valid()
      modifies this`devices, this`connectAttempts
      ensures Valid()
      ensures mac in old(devices) ==>
        && r.Ok? && r.value == old(devices)[mac]
        && devices == old(devices) && connectAttempts == old(connectAttempts)
      ensures mac !in old(devices) ==> connectAttempts == old(connectAttempts) + [mac]
      ensures mac !in old(devices) && connect.Fail? ==>
        r == Err(BluetoothConnectException(connect.error)) && devices == old(devices)
      ensures mac !in old(devices) && connect.Pass? ==>
        && r.Ok? && fresh(r.value) && devices == old(devices)[mac := r.value]
        && r.value.mac == mac && r.value.charset == charset && r.value.revision == revision
        && !r.value.closed && r.value.owner == null && r.value.written == []
    {
      if mac in devices {
        return Ok(devices[mac]);
      }
      connectAttempts := connectAttempts + [mac];
      if connect.Fail? {
        return Err(BluetoothConnectException(connect.error));
      }
      var device := new BluetoothSerialDevice(mac, charset, revision);
      devices := devices[mac := device];
      r := Ok(device);
    }

    /** `openSerialDevice(mac)`: the same as opening with UTF-8. */
    method OpenSerialDeviceUtf8(mac: string, connect: Outcome<Cause>)
      returns (r: Result<BluetoothSerialDevice, BluetoothConnectException>)
      requires Valid()
      modifies this`devices, this`connectAttempts
      ensures Valid()
      ensures mac in old(devices) ==>
        && r.Ok? && r.value == old(devices)[mac]
        && devices == old(devices) && connectAttempts == old(connectAttempts)
      ensures mac !in old(devices) ==> connectAttempts == old(connectAttempts) + [mac]
      ensures mac !in old(devices) && connect.Fail? ==>
        r == Err(BluetoothConnectException(connect.error)) && devices == old(devices)
      ensures mac !in old(devices) && connect.Pass? ==>
        && r.Ok? && fresh(r.value) && devices == old(devices)[mac := r.value]
        && r.value.mac == mac && r.value.charset == Utf8 && r.value.revision == revision
        && !r.value.closed && r.value.owner == null && r.value.written == []
    {
      r := OpenSerialDevice(mac, Utf8, connect);
    }

    /**
     * `closeDevice(mac)`: removes the entry for `mac`, then closes the removed
     * device; an unknown `mac` changes nothing. The Kotlin revision lets a
     * failure of that close escape, the Java revision catches it. Either way
     * the entry stays removed, and no other entry or device changes.
     */
    method CloseDevice(mac: string, fault: TeardownFault) returns (r: Outcome<Cause>)
      requires Valid()
      modifies this`devices, Repr()
      ensures Valid()
      ensures devices == old(devices) - {mac}
      ensures forall m | m in devices :: unchanged(devices[m])
      ensures forall m | m in devices && devices[m].owner != null :: unchanged(devices[m].owner)
      ensures mac !in old(devices) ==> r == Pass
      ensures mac in old(devices) ==>
        && ClosedOnce(old(devices)[mac], old(devices[mac].owner), fault)
        && r == (if revision == ImplKotlin && fault.CloseFails? then Fail(fault.cause) else Pass)
    {
      r := Pass;
      if mac in devices {
        var removed := devices[mac];
        assert removed in devices.Values;
        devices := devices - {mac};
        var closing := removed.Close(fault);
        if revision == ImplKotlin {
          r := closing;
        }
      }
    }

    /** `closeDevice(device)`: closeDevice on the device's MAC address. */
    method CloseDeviceOf(device: BluetoothSerialDevice, fault: TeardownFault) returns (r: Outcome<Cause>)
      requires Valid()
      modifies this`devices, Repr()
      ensures Valid()
      ensures devices == old(devices) - {device.mac}
      ensures forall m | m in devices :: unchanged(devices[m])
      ensures forall m | m in devices && devices[m].owner != null :: unchanged(devices[m].owner)
      ensures device.mac !in old(devices) ==> r == Pass
      ensures device.mac in old(devices) ==>
        && ClosedOnce(old(devices)[device.mac], old(devices[device.mac].owner), fault)
        && r == (if revision == ImplKotlin && fault.CloseFails? then Fail(fault.cause) else Pass)
    {
      r := CloseDevice(device.mac, fault);
    }

    /** `closeDevice(deviceInterface)`: closeDevice on the MAC address of the facade's device. */
    method CloseDeviceOfInterface(deviceInterface: SimpleBluetoothDeviceInterface, fault: TeardownFault)
      returns (r: Outcome<Cause>)
      requires Valid()
      modifies this`devices, Repr()
      ensures Valid()
      ensures devices == old(devices) - {deviceInterface.device.mac}
      ensures forall m | m in devices :: unchanged(devices[m])
      ensures forall m | m in devices && devices[m].owner != null :: unchanged(devices[m].owner)
      ensures deviceInterface.device.mac !in old(devices) ==> r == Pass
      ensures deviceInterface.device.mac in old(devices) ==>
        && ClosedOnce(old(devices)[deviceInterface.device.mac], old(devices[deviceInterface.device.mac].owner), fault)
        && r == (if revision == ImplKotlin && fault.CloseFails? then Fail(fault.cause) else Pass)
    {
      r := CloseDevice(deviceInterface.device.mac, fault);
    }

    /**
     * What closing `d`, which was open and owned `o`, did: the teardown calls
     * of `fault` were made once, nothing was written, and `o` changed at most
     * in `disposed`. Unless the teardown threw, `o` was disposed and forgotten;
     * if it threw, `d` still owns `o` and `o` is as it was.
     */
    twostate predicate ClosedOnce(d: BluetoothSerialDevice, o: SimpleBluetoothDeviceInterface?, fault: TeardownFault)
      reads d, o
    {
      && d.closed && d.teardown == TeardownCalls(fault) && d.written == old(d.written)
      && (fault.NoFault? ==> d.owner == null && (o != null ==> o.disposed))
      && (fault.CloseFails? ==> d.owner == o && (o != null ==> o.disposed == old(o.disposed)))
      && (o != null ==> o.OnlyDisposedChanged())
    }

    /**
     * `close`: closes every stored device, ignoring any failure so that the
     * rest are still closed, then empties the map. `faults` says which
     * teardown call, if any, throws for the device stored under each address.
     */
    method Close(faults: string -> TeardownFault)
      requires Valid()
      modifies this`devices, Repr()
      ensures Valid()
      ensures devices == map[]
      ensures forall mac | mac in old(devices) :: ClosedOnce(old(devices)[mac], old(devices[mac].owner), faults(mac))
    {
      // the stored devices and the facade each of them owned on entry
      var stored := devices;
      ghost var owners := map m | m in stored :: stored[m].owner;
      var pending := stored.Keys;
      while pending != {}
        invariant pending <= stored.Keys == owners.Keys
        invariant forall m | m in owners :: owners[m] == old(stored[m].owner)
        invariant forall m | m in old(devices) && m !in pending :: ClosedOnce(old(devices)[m], old(devices[m].owner), faults(m))
        invariant forall m | m in pending :: unchanged(stored[m]) && (owners[m] != null ==> unchanged(owners[m]))
        decreases pending
      {
        var m :| m in pending;
        var device := stored[m];
        assert device in old(devices).Values;
        var _ := device.Close(faults(m));
        pending := pending - {m};
      }
      devices := map[];
    }
  }
}
