/**
 * The keyboard session of src/Pulsar.cpp: opening the vendor control
 * interface, sending one report per command, and closing again, with every
 * successful hid_init matched by exactly one hid_exit.
 */
module Device {
  import opened Wrappers
  import opened PulsarTypes
  import opened Report
  import opened Encoding
  import opened Hid

  /** USB identity of the Xanova Pulsar XK400. */
  const VendorId: int := 0x1024
  const ProductId: int := 0x2020
  /** The vendor-specific interface that accepts the lighting reports. */
  const ControlInterface: int := 2

  /** The runtime errors the session throws. */
  datatype SessionError =
    | InitFailed   // hid_init failed
    | NotPresent   // no device with the vendor and product id
    | OpenFailed   // no control interface, or it would not open
    | WriteFailed  // the feature report was rejected

  /** Index of the first entry of `devs` with interface number `iface`. */
  function FirstWithInterface(devs: seq<DeviceInfo>, iface: int): (r: Option<nat>)
    ensures r.Some? ==> r.value < |devs| && devs[r.value].interfaceNumber == iface
    ensures r.Some? ==> forall j :: 0 <= j < r.value ==> devs[j].interfaceNumber != iface
    ensures r.None? <==> forall j :: 0 <= j < |devs| ==> devs[j].interfaceNumber != iface
  {
    if |devs| == 0 then None
    else if devs[0].interfaceNumber == iface then Some(0)
    else
      match FirstWithInterface(devs[1..], iface)
      case None => None
      case Some(k) => Some(k + 1)
  }

  /** The devices hid_enumerate reports for the keyboard's vendor and product id. */
  function Candidates(attached: seq<DeviceInfo>): seq<DeviceInfo> {
    Matching(attached, VendorId, ProductId)
  }

  /** The path the session tries to open: that of the first candidate on the control interface. */
  function ControlPath(attached: seq<DeviceInfo>): Option<string> {
    var devs := Candidates(attached);
    match FirstWithInterface(devs, ControlInterface)
    case Some(i) => Some(devs[i].path)
    case None => None
  }

  /** An attached keyboard entry for the vendor-specific control interface. */
  predicate IsControlEntry(d: DeviceInfo) {
    d.vendorId == VendorId && d.productId == ProductId && d.interfaceNumber == ControlInterface
  }

  /**
   * The path the session tries is that of the first control-interface
   * keyboard entry in bus order, and it tries none when no attached entry
   * is one.
   */
  lemma {:induction false} ControlPathFound(attached: seq<DeviceInfo>)
    ensures ControlPath(attached).Some? ==>
      exists k :: 0 <= k < |attached| && IsControlEntry(attached[k]) && attached[k].path == ControlPath(attached).value
               && forall j :: 0 <= j < k ==> !IsControlEntry(attached[j])
    ensures ControlPath(attached).None? <==> forall j :: 0 <= j < |attached| ==> !IsControlEntry(attached[j])
  {
    if |attached| > 0 {
      var d, rest := attached[0], attached[1..];
      ControlPathFound(rest);
      var found := Candidates(rest);
      if d.vendorId == VendorId && d.productId == ProductId {
        assert Candidates(attached) == [d] + found;
        assert ([d] + found)[1..] == found;
      } else {
        assert Candidates(attached) == found;
      }
      if IsControlEntry(d) {
        assert FirstWithInterface(Candidates(attached), ControlInterface) == Some(0);
      } else {
        assert ControlPath(attached) == ControlPath(rest);
        if ControlPath(rest).Some? {
          var k :| 0 <= k < |rest| && IsControlEntry(rest[k]) && rest[k].path == ControlPath(rest).value
                   && forall j :: 0 <= j < k ==> !IsControlEntry(rest[j]);
          assert attached[k + 1] == rest[k];
          forall j | 0 <= j < k + 1 ensures !IsControlEntry(attached[j]) {
            if j > 0 {
              assert attached[j] == rest[j - 1];
            }
          }
        } else {
          forall j | 0 <= j < |attached| ensures !IsControlEntry(attached[j]) {
            if j > 0 {
              assert attached[j] == rest[j - 1];
            }
          }
        }
      }
    }
  }

  /** The HID calls opening a session makes, and the handle it ends up holding or the error it throws. */
  datatype Opening = Opening(calls: seq<Call>, result: Result<Handle, SessionError>)

  /**
   * What the constructor Pulsar::Pulsar does against a library whose hid_init
   * returns `initStatus`, with `attached` on the bus, of which `openable`
   * can be opened: the calls it makes and how it ends. It fails with
   * InitFailed exactly when hid_init fails, with NotPresent exactly when no
   * keyboard is attached, and otherwise holds the control path it opened or
   * fails with OpenFailed.
   */
  function OpenProtocol(initStatus: int, attached: seq<DeviceInfo>, openable: set<string>): (o: Opening)
    ensures o.result == Failure(InitFailed) <==> initStatus < 0
    ensures o.result == Failure(NotPresent) <==>
      initStatus >= 0 && forall d :: d in attached ==> d.vendorId != VendorId || d.productId != ProductId
    ensures o.result.Success? ==> ControlPath(attached) == Some(o.result.value.path) && o.result.value.path in openable
  {
    MatchingFilters(attached, VendorId, ProductId);
    var enumerated := [HidInit(true), HidEnumerate(VendorId, ProductId)];
    if initStatus < 0 then Opening([HidInit(false)], Failure(InitFailed))
    else if Candidates(attached) == [] then Opening(enumerated + [HidExit], Failure(NotPresent))
    else
      match ControlPath(attached)
      case None => Opening(enumerated + [HidExit], Failure(OpenFailed))
      case Some(path) =>
        if path in openable then Opening(enumerated + [HidOpenPath(path, true)], Success(Handle(path)))
        else Opening(enumerated + [HidOpenPath(path, false), HidExit], Failure(OpenFailed))
  }

  /**
   * Opening starts with hid_init and calls hid_exit, once and as its last
   * call, exactly when it fails after a successful hid_init. It succeeds exactly
   * when hid_init succeeds and the first control-interface path opens.
   */
  lemma OpenProtocolExits(initStatus: int, attached: seq<DeviceInfo>, openable: set<string>)
    ensures var o := OpenProtocol(initStatus, attached, openable);
      && o.calls != [] && o.calls[0] == HidInit(initStatus >= 0)
      && (HidExit in o.calls <==> initStatus >= 0 && o.result.Failure?)
      && multiset(o.calls)[HidExit] == (if initStatus >= 0 && o.result.Failure? then 1 else 0)
      && (HidExit in o.calls ==> o.calls[|o.calls| - 1] == HidExit)
      && (o.result.Success? <==> initStatus >= 0 && ControlPath(attached).Some? && ControlPath(attached).value in openable)
  {
    var enumerated := [HidInit(true), HidEnumerate(VendorId, ProductId)];
    assert multiset(enumerated + [HidExit])[HidExit] == 1;
    match ControlPath(attached) {
      case None =>
      case Some(path) =>
        assert multiset(enumerated + [HidOpenPath(path, true)])[HidExit] == 0;
        assert multiset(enumerated + [HidOpenPath(path, false), HidExit])[HidExit] == 1;
    }
  }

  /** Opening leaves the library initialised once more exactly when it succeeds. */
  lemma OpenProtocolBalanced(initStatus: int, attached: seq<DeviceInfo>, openable: set<string>)
    ensures var o := OpenProtocol(initStatus, attached, openable);
      Balance(o.calls) == if o.result.Success? then 1 else 0
  {
    BalanceSnoc([], HidInit(initStatus >= 0));
    assert [] + [HidInit(initStatus >= 0)] == [HidInit(initStatus >= 0)];
    var enumerated := [HidInit(true), HidEnumerate(VendorId, ProductId)];
    assert [HidInit(true)] + [HidEnumerate(VendorId, ProductId)] == enumerated;
    BalanceSnoc([HidInit(true)], HidEnumerate(VendorId, ProductId));
    BalanceSnoc(enumerated, HidExit);
    match ControlPath(attached) {
      case None =>
      case Some(path) =>
        var tried := enumerated + [HidOpenPath(path, path in openable)];
        BalanceSnoc(enumerated, HidOpenPath(path, path in openable));
        BalanceSnoc(tried, HidExit);
        assert tried + [HidExit] == enumerated + [HidOpenPath(path, path in openable), HidExit];
    }
  }

  /** `after` is `before` plus one feature report, sent on `h`, that carries frame `f`. */
  ghost predicate SendsFrame(before: seq<Call>, after: seq<Call>, h: Handle, f: Frame, ok: bool) {
    && |after| == |before| + 1
    && after[..|before|] == before
    && after[|before|].HidSendFeatureReport?
    && after[|before|].handle == h
    && after[|before|].ok == ok
    && Decode(after[|before|].data) == Some(f)
  }

  /** A lighting command as main issues it: one per invocation. */
  datatype Command =
    | BacklightCommand(backlightMode: BacklightMode, speed: uint8)
    | KeylightCommand(keylightMode: KeylightMode, speed: uint8)
    | BrightnessCommand(level: uint8)

  /** An open connection to the keyboard. */
  class Pulsar {
    const api: HidApi
    /** The device handle; None is the null pointer. */
    var handle: Option<Handle>

    /** The member initialiser `handle(nullptr)`. */
    constructor Unopened(api: HidApi)
      ensures this.api == api && handle == None
    {
      this.api := api;
      handle := None;
    }

    /**
     * The constructor Pulsar::Pulsar: initialise the library, enumerate the
     * keyboard, open the first entry on interface 2 (and only that one), and
     * on any failure after a successful hid_init call hid_exit once before
     * throwing.
     */
    static method Create(api: HidApi) returns (r: Result<Pulsar, SessionError>)
      modifies api
      ensures var o := OpenProtocol(api.initStatus, api.attached, api.openable);
        && api.trace == old(api.trace) + o.calls
        && (o.result.Failure? ==> r == Failure(o.result.error))
        && (o.result.Success? ==> r.Success? && fresh(r.value) && r.value.api == api && r.value.handle == Some(o.result.value))
    {
      var pulsar := new Pulsar.Unopened(api);
      var status := api.Init();
      if status < 0 {
        return Failure(InitFailed);
      }
      var devs := api.Enumerate(VendorId, ProductId);
      if devs == [] {
        api.Exit();
        return Failure(NotPresent);
      }
      ghost var enumerated := api.trace;
      pulsar.OpenControlInterface(devs);
      ghost var pick := FirstWithInterface(devs, ControlInterface);
      if pick.Some? {
        ghost var path := devs[pick.value].path;
        assert ControlPath(api.attached) == Some(path);
        assert api.trace == enumerated + [HidOpenPath(path, path in api.openable)];
      }
      if pulsar.handle == None {
        api.Exit();
        return Failure(OpenFailed);
      }
      r := Success(pulsar);
    }

    /**
     * The scan of the enumeration list in Pulsar::Pulsar: walk the list to the
     * first entry on the control interface, try to open it, and stop there
     * whether or not the open succeeded.
     */
    method OpenControlInterface(devs: seq<DeviceInfo>)
      requires handle == None
      modifies this, api
      ensures FirstWithInterface(devs, ControlInterface).None? ==> handle == None && api.trace == old(api.trace)
      ensures FirstWithInterface(devs, ControlInterface).Some? ==>
        var path := devs[FirstWithInterface(devs, ControlInterface).value].path;
        && handle == (if path in api.openable then Some(Handle(path)) else None)
        && api.trace == old(api.trace) + [HidOpenPath(path, path in api.openable)]
      ensures Balance(api.trace) == Balance(old(api.trace))
    {
      var i := 0;
      while i < |devs|
        invariant 0 <= i <= |devs|
        invariant forall j :: 0 <= j < i ==> devs[j].interfaceNumber != ControlInterface
        invariant handle == None && api.trace == old(api.trace)
      {
        if devs[i].interfaceNumber == ControlInterface {
          handle := api.OpenPath(devs[i].path);
          BalanceSnoc(old(api.trace), HidOpenPath(devs[i].path, handle.Some?));
          assert FirstWithInterface(devs, ControlInterface) == Some(i);
          return;
        }
        i := i + 1;
      }
    }

    /** The destructor Pulsar::~Pulsar: hid_close on the handle, then hid_exit. */
    method Destroy()
      requires handle.Some?
      modifies this, api
      ensures handle == None
      ensures api.trace == old(api.trace) + [HidClose(old(handle).value), HidExit]
      ensures Balance(api.trace) == Balance(old(api.trace)) - 1
    {
      api.Close(handle.value);
      handle := None;
      api.Exit();
      BalanceAppend(old(api.trace), [HidClose(old(handle).value), HidExit]);
    }

    /**
     * set_backlight: build the backlight report and send it as a feature
     * report; a negative status from the library throws.
     */
    method SetBacklight(mode: BacklightMode, speed: uint8 := DefaultSpeed) returns (r: Outcome<SessionError>)
      requires handle.Some?
      modifies api
      ensures SendsFrame(old(api.trace), api.trace, handle.value,
                         BacklightFrame(mode, BacklightSpeedRegister(speed) as byte), api.sendStatus >= 0)
      ensures Balance(api.trace) == Balance(old(api.trace))
      ensures r == if api.sendStatus < 0 then Fail(WriteFailed) else Pass
    {
      var report := FillBacklight(mode, speed);
      var status := api.SendFeatureReport(handle.value, report);
      BalanceAppend(old(api.trace), [HidSendFeatureReport(handle.value, report, status >= 0)]);
      r := if status < 0 then Fail(WriteFailed) else Pass;
    }

    /**
     * set_keylight: build the keylight report and send it as a feature
     * report; a negative status from the library throws.
     */
    method SetKeylight(mode: KeylightMode, speed: uint8 := DefaultSpeed) returns (r: Outcome<SessionError>)
      requires handle.Some?
      modifies api
      ensures SendsFrame(old(api.trace), api.trace, handle.value,
                         KeylightFrame(mode, KeylightSpeedStep(speed) as byte), api.sendStatus >= 0)
      ensures Balance(api.trace) == Balance(old(api.trace))
      ensures r == if api.sendStatus < 0 then Fail(WriteFailed) else Pass
    {
      var report := FillKeylight(mode, speed);
      var status := api.SendFeatureReport(handle.value, report);
      BalanceAppend(old(api.trace), [HidSendFeatureReport(handle.value, report, status >= 0)]);
      r := if status < 0 then Fail(WriteFailed) else Pass;
    }

    /**
     * set_brightness: build the brightness report and send it as a feature
     * report; a negative status from the library throws.
     */
    method SetBrightness(level: uint8) returns (r: Outcome<SessionError>)
      requires handle.Some?
      modifies api
      ensures SendsFrame(old(api.trace), api.trace, handle.value, BrightnessFrame(level as byte), api.sendStatus >= 0)
      ensures Balance(api.trace) == Balance(old(api.trace))
      ensures r == if api.sendStatus < 0 then Fail(WriteFailed) else Pass
    {
      var report := FillBrightness(level);
      var status := api.SendFeatureReport(handle.value, report);
      BalanceAppend(old(api.trace), [HidSendFeatureReport(handle.value, report, status >= 0)]);
      r := if status < 0 then Fail(WriteFailed) else Pass;
    }
  }

  /** The frame the report for `cmd` carries. */
  function CommandFrame(cmd: Command): Frame {
    match cmd
    case BacklightCommand(mode, speed) => BacklightFrame(mode, BacklightSpeedRegister(speed) as byte)
    case KeylightCommand(mode, speed) => KeylightFrame(mode, KeylightSpeedStep(speed) as byte)
    case BrightnessCommand(level) => BrightnessFrame(level as byte)
  }

  /**
   * One invocation as main runs it: open the session, issue one command,
   * and let the session's destructor run whether or not the send threw.
   * A failed opening makes only the opening calls. A successful one is
   * followed by one report carrying the command, then hid_close and
   * hid_exit. However it ends, hid_init and hid_exit are balanced.
   */
  method RunCommand(api: HidApi, cmd: Command) returns (r: Outcome<SessionError>)
    modifies api
    ensures Balance(api.trace) == Balance(old(api.trace))
    ensures var o := OpenProtocol(api.initStatus, api.attached, api.openable);
      o.result.Failure? ==> api.trace == old(api.trace) + o.calls
    ensures var o := OpenProtocol(api.initStatus, api.attached, api.openable);
      var afterOpen := old(api.trace) + o.calls;
      o.result.Success? ==>
        && |api.trace| == |afterOpen| + 3
        && SendsFrame(afterOpen, api.trace[..|afterOpen| + 1], o.result.value, CommandFrame(cmd), api.sendStatus >= 0)
        && api.trace[|afterOpen| + 1..] == [HidClose(o.result.value), HidExit]
    ensures var opening := OpenProtocol(api.initStatus, api.attached, api.openable).result;
      r == if opening.Failure? then Fail(opening.error) else if api.sendStatus < 0 then Fail(WriteFailed) else Pass
  {
    OpenProtocolBalanced(api.initStatus, api.attached, api.openable);
    BalanceAppend(api.trace, OpenProtocol(api.initStatus, api.attached, api.openable).calls);
    var session := Pulsar.Create(api);
    if session.Failure? {
      return Fail(session.error);
    }
    var pulsar := session.value;
    ghost var afterOpen := api.trace;
    match cmd {
      case BacklightCommand(mode, speed) => r := pulsar.SetBacklight(mode, speed);
      case KeylightCommand(mode, speed) => r := pulsar.SetKeylight(mode, speed);
      case BrightnessCommand(level) => r := pulsar.SetBrightness(level);
    }
    ghost var sent := api.trace;
    pulsar.Destroy();
    assert api.trace[..|afterOpen| + 1] == sent;
  }
}
