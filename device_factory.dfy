/**
 * Choosing a driver for a freshly connected Bluetooth device, decoding heart
 * rate measurements, and the fixed answers of the heart-rate and test devices.
 *
 * A power meter is driven as a fitness machine (FTMS) when it offers that
 * service, else as a Kickr when it offers the Kickr service, else as a
 * cycling power meter (CPS); a heart-rate monitor needs the Heart Rate
 * service. A device chosen without a GATT server is refused before anything
 * else happens, and a successful connection first resets the write channel.
 */
module DeviceFactory {
  import opened Wrappers
  import opened DeviceUtils

  const NoGattMessage: string := "No device gatt?"
  const UnrecognizedDeviceMessage: string := "We don't recognize what kind of device this is"
  const NotImplementedMessage: string := "Method not implemented."

  /** The drivers a connected device can be given. */
  datatype DeviceKind = FtmsDevice | KickrDevice | CpsDevice | HrmDevice

  /** A device picked by the user; `gatt` is None when the browser gave it no GATT server. */
  datatype ChosenDevice = ChosenDevice(gatt: Option<GattServer>)

  /** The power-meter driver for a device offering `services`, by fixed precedence. */
  function ClassifyPowermeter(services: seq<Service>): (r: Result<DeviceKind>)
    ensures r == Success(FtmsDevice) <==> Offers(services, FtmsUuid)
    ensures r == Success(KickrDevice) <==> !Offers(services, FtmsUuid) && Offers(services, KickrServiceUuid)
    ensures r == Success(CpsDevice)
            <==> !Offers(services, FtmsUuid) && !Offers(services, KickrServiceUuid) && Offers(services, CpsUuid)
    ensures r.Failure? <==> !Offers(services, FtmsUuid) && !Offers(services, KickrServiceUuid) && !Offers(services, CpsUuid)
    ensures r.Failure? ==> r.error == UnrecognizedDeviceMessage
    ensures r != Success(HrmDevice)
  {
    var ftms := GetFtms(services);
    var cps := GetCps(services);
    var kickr := GetKickrService(services);
    if ftms.Some? then Success(FtmsDevice)
    else if kickr.Some? then Success(KickrDevice)
    else if cps.Some? then Success(CpsDevice)
    else Failure(UnrecognizedDeviceMessage)
  }

  /** The heart-rate driver for a device offering `services`; there is no fallback. */
  function ClassifyHrm(services: seq<Service>): (r: Result<DeviceKind>)
    ensures r.Success? <==> Offers(services, HrmUuid)
    ensures r.Success? ==> r.value == HrmDevice
    ensures r.Failure? ==> r.error == UnrecognizedDeviceMessage
  {
    var hrm := GetHrm(services);
    if hrm.Some? then Success(HrmDevice) else Failure(UnrecognizedDeviceMessage)
  }

  /** The FTMS driver wins over every other service a power meter may also offer. */
  lemma FtmsTakesPrecedence(services: seq<Service>, extra: seq<Service>)
    requires Offers(services, FtmsUuid)
    ensures ClassifyPowermeter(services + extra) == Success(FtmsDevice)
    ensures ClassifyPowermeter(extra + services) == Success(FtmsDevice)
  {
    var i :| 0 <= i < |services| && services[i].uuid == FtmsUuid;
    assert (services + extra)[i] == services[i];
    assert (extra + services)[|extra| + i] == services[i];
  }

  /** Connects to a chosen device and picks its power-meter driver. */
  method FindPowermeter(channel: WriteChannel, device: ChosenDevice) returns (r: Result<DeviceKind>)
    modifies channel
    ensures device.gatt.None? ==> r == Failure(NoGattMessage) && channel.cache == old(channel.cache) && channel.queue == old(channel.queue)
    ensures device.gatt.Some? ==> r == ClassifyPowermeter(device.gatt.value.primaryServices) && channel.cache == map[] && channel.queue == Resolved
    ensures channel.log == old(channel.log)
  {
    if device.gatt.None? {
      return Failure(NoGattMessage);
    }
    var server := device.gatt.value;
    channel.NotifyConnect();
    r := ClassifyPowermeter(server.primaryServices);
  }

  /** Connects to a chosen device and picks the heart-rate driver. */
  method FindHrm(channel: WriteChannel, device: ChosenDevice) returns (r: Result<DeviceKind>)
    modifies channel
    ensures device.gatt.None? ==> r == Failure(NoGattMessage) && channel.cache == old(channel.cache) && channel.queue == old(channel.queue)
    ensures device.gatt.Some? ==> r == ClassifyHrm(device.gatt.value.primaryServices) && channel.cache == map[] && channel.queue == Resolved
    ensures channel.log == old(channel.log)
  {
    if device.gatt.None? {
      return Failure(NoGattMessage);
    }
    var server := device.gatt.value;
    channel.NotifyConnect();
    r := ClassifyHrm(server.primaryServices);
  }

  /** An unsigned byte as read from a characteristic value. */
  type Byte = b: int | 0 <= b < 256

  /** Bit 0 of a byte, the test the flags byte is read with. */
  predicate Bit0Set(b: Byte) {
    (b as bv8) & 1 == 1
  }

  /** Bit 0 is set exactly on odd bytes. */
  lemma Bit0SetIffOdd(b: Byte)
    ensures Bit0Set(b) <==> b % 2 == 1
  {
    var v := b as bv8;
    assert v & 1 == v % 2;
    assert (v % 2) as int == b % 2;
  }

  /**
   * The heart rate carried by a Heart Rate Measurement value: bit 0 of the
   * flags byte chooses an 8-bit value at offset 1 or a little-endian 16-bit
   * value at offsets 1 and 2. Reading past the end of the value fails.
   */
  function DecodeHrm(data: seq<Byte>): (r: Result<nat>)
    ensures r.Success? <==> |data| >= 2 && (!Bit0Set(data[0]) || |data| >= 3)
    ensures r.Success? && !Bit0Set(data[0]) ==> r.value < 256
    ensures r.Success? ==> r.value < 65536
  {
    if |data| < 1 then Failure("offset 0 is outside the value")
    else
      var flags := data[0];
      if !Bit0Set(flags) then
        if |data| < 2 then Failure("offset 1 is outside the value")
        else Success(data[1])
      else
        if |data| < 3 then Failure("offsets 1-2 are outside the value")
        else Success(data[1] as int + 256 * (data[2] as int))
  }

  /** Length of the flags byte plus the heart rate in the chosen format. */
  function HrmLength(wide: bool): nat {
    if wide then 3 else 2
  }

  /** A measurement value carrying `hr` in the 16-bit format when `wide`, in the 8-bit one otherwise. */
  function EncodeHrm(hr: nat, wide: bool): (data: seq<Byte>)
    requires hr < (if wide then 65536 else 256)
    ensures |data| == HrmLength(wide) && Bit0Set(data[0]) == wide
  {
    Bit0SetIffOdd(0);
    Bit0SetIffOdd(1);
    if wide then [1, hr % 256, hr / 256] else [0, hr]
  }

  /** Decoding an encoded heart rate gives it back, in either format and whatever follows it. */
  lemma DecodeEncodeHrm(hr: nat, wide: bool, extra: seq<Byte>)
    requires hr < (if wide then 65536 else 256)
    ensures DecodeHrm(EncodeHrm(hr, wide) + extra) == Success(hr)
  {
    var data := EncodeHrm(hr, wide) + extra;
    assert data[0] == EncodeHrm(hr, wide)[0];
    if wide {
      assert data[1] == hr % 256 && data[2] == hr / 256;
    } else {
      assert data[1] == hr;
    }
  }

  /**
   * Every value that decodes is an encoding of the decoded rate in the
   * format its flags byte names, followed by bytes that are not read.
   */
  lemma DecodeHrmIsEncoding(data: seq<Byte>)
    requires DecodeHrm(data).Success?
    ensures var wide := Bit0Set(data[0]);
            var hr := DecodeHrm(data).value;
            && hr < (if wide then 65536 else 256)
            && |data| >= HrmLength(wide)
            && data[1..HrmLength(wide)] == EncodeHrm(hr, wide)[1..]
  {
    var wide := Bit0Set(data[0]);
    var hr := DecodeHrm(data).value;
    if wide {
      assert hr % 256 == data[1] && hr / 256 == data[2];
    }
  }

  /**
   * Only bit 0 of the flags byte and the bytes of the heart rate matter: the
   * other flag bits and anything after the rate (energy, RR intervals) are
   * ignored, in both formats.
   */
  lemma DecodeHrmIgnoresRest(data: seq<Byte>, flags: Byte, extra: seq<Byte>)
    requires |data| >= 1 && |data| >= HrmLength(Bit0Set(data[0])) && Bit0Set(flags) == Bit0Set(data[0])
    ensures DecodeHrm([flags] + data[1..HrmLength(Bit0Set(data[0]))] + extra) == DecodeHrm(data)
  {
    var n := HrmLength(Bit0Set(data[0]));
    var d := [flags] + data[1..n] + extra;
    assert d[0] == flags && d[1] == data[1];
    if n == 3 {
      assert d[2] == data[2];
    }
  }

  /** One heart-rate reading handed on to listeners. */
  datatype HrmSample = HrmSample(tmNow: int, bpm: nat)

  /** A heart-rate monitor connected over Bluetooth. */
  class BluetoothHrmDevice {
    var notifications: seq<HrmSample>

    constructor ()
      ensures notifications == []
    {
      notifications := [];
    }

    /** Decodes one measurement and, when it decodes, passes exactly one reading on. */
    method DecodeHrmData(tmNow: int, data: seq<Byte>) returns (r: Result<nat>)
      modifies this
      ensures r == DecodeHrm(data)
      ensures r.Success? ==> notifications == old(notifications) + [HrmSample(tmNow, r.value)]
      ensures r.Failure? ==> notifications == old(notifications)
    {
      r := DecodeHrm(data);
      if r.Success? {
        notifications := notifications + [HrmSample(tmNow, r.value)];
      }
    }

    function HasPower(): (b: bool) ensures !b { false }
    function HasCadence(): (b: bool) ensures !b { false }
    function HasHrm(): (b: bool) ensures b { true }

    /** The HRM accepts no trainer commands; every one resolves to false. */
    method UpdateErg(tmNow: int, watts: int) returns (ok: bool)
      ensures !ok
    {
      ok := false;
    }

    method UpdateSlope(tmNow: int, ftmsPct: int) returns (ok: bool)
      ensures !ok
    {
      ok := false;
    }

    method UpdateResistance(tmNow: int, pct: int) returns (ok: bool)
      ensures !ok
    {
      ok := false;
    }
  }

  datatype DeviceState = Ok | Disconnected

  /** A fake power meter that produces readings from a timer. */
  class TestPowermeter {
    /** The timer producing readings, or None once disconnected. */
    var interval: Option<nat>

    constructor (timer: nat)
      ensures interval == Some(timer)
    {
      interval := Some(timer);
    }

    method Disconnect()
      modifies this
      ensures interval.None?
    {
      interval := None;
    }

    function GetState(): (s: DeviceState) ensures s == Ok { Ok }
    function HasPower(): (b: bool) ensures b { true }
    function HasCadence(): (b: bool) ensures !b { false }
    function HasHrm(): (b: bool) ensures !b { false }

    method UpdateSlope(tmNow: int, ftmsPct: int) returns (ok: bool)
      ensures !ok
    {
      ok := false;
    }

    method UpdateErg(tmNow: int, watts: int) returns (ok: bool)
      ensures !ok
    {
      ok := false;
    }

    /** Not implemented by the fake device: always an error. */
    function GetDeviceId(): (r: Result<string>)
      ensures r.Failure? && r.error == NotImplementedMessage
    {
      Failure(NotImplementedMessage)
    }

    function UpdateResistance(tmNow: int, pct: int): (r: Result<bool>)
      ensures r.Failure? && r.error == NotImplementedMessage
    {
      Failure(NotImplementedMessage)
    }
  }
}
