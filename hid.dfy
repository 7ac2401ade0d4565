/**
 * The HIDAPI calls the keyboard driver makes, as an oracle: the outcome of
 * each call is fixed when the oracle is built, and every call is appended to
 * a ghost trace so that the pairing of hid_init and hid_exit can be stated.
 */
module Hid {
  import opened Wrappers
  import opened PulsarTypes

  /** One entry of the list hid_enumerate returns. */
  datatype DeviceInfo = DeviceInfo(path: string, vendorId: int, productId: int, interfaceNumber: int)

  /** An open device, identified by the path it was opened from. */
  datatype Handle = Handle(path: string)

  /** A call made to the HID library, with whether it succeeded where it can fail. */
  datatype Call =
    | HidInit(ok: bool)
    | HidEnumerate(vendorId: int, productId: int)
    | HidOpenPath(path: string, ok: bool)
    | HidSendFeatureReport(handle: Handle, data: seq<byte>, ok: bool)
    | HidClose(handle: Handle)
    | HidExit

  /** The attached devices with the given vendor and product id, in bus order. */
  function Matching(devs: seq<DeviceInfo>, vendorId: int, productId: int): seq<DeviceInfo> {
    if |devs| == 0 then []
    else
      var rest := Matching(devs[1..], vendorId, productId);
      if devs[0].vendorId == vendorId && devs[0].productId == productId then [devs[0]] + rest else rest
  }

  /** Enumeration keeps exactly the attached devices with the requested ids. */
  lemma {:induction false} MatchingFilters(devs: seq<DeviceInfo>, vendorId: int, productId: int)
    ensures forall d :: d in Matching(devs, vendorId, productId)
                    <==> d in devs && d.vendorId == vendorId && d.productId == productId
  {
    if |devs| > 0 {
      MatchingFilters(devs[1..], vendorId, productId);
      assert devs == [devs[0]] + devs[1..];
    }
  }

  /**
   * Enumeration is a filter that keeps bus order: the matches among the
   * devices of a prefix come before those of the rest.
   */
  lemma {:induction false} MatchingAppend(a: seq<DeviceInfo>, b: seq<DeviceInfo>, vendorId: int, productId: int)
    ensures Matching(a + b, vendorId, productId) == Matching(a, vendorId, productId) + Matching(b, vendorId, productId)
  {
    if |a| == 0 {
      assert a + b == b;
    } else {
      assert (a + b)[1..] == a[1..] + b;
      MatchingAppend(a[1..], b, vendorId, productId);
    }
  }

  /** How a call changes the number of open initialisations of the library. */
  function Weight(c: Call): int {
    match c
    case HidInit(ok) => if ok then 1 else 0
    case HidExit => -1
    case _ => 0
  }

  /** Successful hid_init calls minus hid_exit calls: the library's open initialisations. */
  function Balance(trace: seq<Call>): int {
    if |trace| == 0 then 0 else Balance(trace[..|trace| - 1]) + Weight(trace[|trace| - 1])
  }

  /** One more call adds its weight. */
  lemma BalanceSnoc(t: seq<Call>, c: Call)
    ensures Balance(t + [c]) == Balance(t) + Weight(c)
  {
    assert (t + [c])[..|t|] == t;
  }

  /** The balance of a trace is the sum of the balances of its parts. */
  lemma {:induction false} BalanceAppend(t1: seq<Call>, t2: seq<Call>)
    ensures Balance(t1 + t2) == Balance(t1) + Balance(t2)
  {
    if |t2| == 0 {
      assert t1 + t2 == t1;
    } else {
      assert (t1 + t2)[..|t1 + t2| - 1] == t1 + t2[..|t2| - 1];
      BalanceAppend(t1, t2[..|t2| - 1]);
    }
  }

  /** The HID library together with the devices attached to the host. */
  class HidApi {
    /** What hid_init returns; negative is failure. */
    const initStatus: int
    /** The devices on the bus in enumeration order. */
    const attached: seq<DeviceInfo>
    /** The paths hid_open_path can open. */
    const openable: set<string>
    /** What hid_send_feature_report returns; negative is failure. */
    const sendStatus: int
    /** Every call made so far, oldest first. */
    ghost var trace: seq<Call>

    constructor (initStatus: int, attached: seq<DeviceInfo>, openable: set<string>, sendStatus: int)
      ensures this.initStatus == initStatus && this.attached == attached
      ensures this.openable == openable && this.sendStatus == sendStatus
      ensures trace == []
    {
      this.initStatus := initStatus;
      this.attached := attached;
      this.openable := openable;
      this.sendStatus := sendStatus;
      trace := [];
    }

    /** hid_init. */
    method Init() returns (status: int)
      modifies this
      ensures status == initStatus
      ensures trace == old(trace) + [HidInit(initStatus >= 0)]
    {
      status := initStatus;
      trace := trace + [HidInit(status >= 0)];
    }

    /** hid_enumerate: an empty list stands for the null pointer. */
    method Enumerate(vendorId: int, productId: int) returns (devs: seq<DeviceInfo>)
      modifies this
      ensures devs == Matching(attached, vendorId, productId)
      ensures trace == old(trace) + [HidEnumerate(vendorId, productId)]
    {
      devs := Matching(attached, vendorId, productId);
      trace := trace + [HidEnumerate(vendorId, productId)];
    }

    /** hid_open_path: None stands for the null pointer. */
    method OpenPath(path: string) returns (h: Option<Handle>)
      modifies this
      ensures h == if path in openable then Some(Handle(path)) else None
      ensures trace == old(trace) + [HidOpenPath(path, path in openable)]
    {
      h := if path in openable then Some(Handle(path)) else None;
      trace := trace + [HidOpenPath(path, h.Some?)];
    }

    /** hid_send_feature_report. */
    method SendFeatureReport(h: Handle, data: seq<byte>) returns (status: int)
      modifies this
      ensures status == sendStatus
      ensures trace == old(trace) + [HidSendFeatureReport(h, data, sendStatus >= 0)]
    {
      status := sendStatus;
      trace := trace + [HidSendFeatureReport(h, data, status >= 0)];
    }

    /** hid_close. */
    method Close(h: Handle)
      modifies this
      ensures trace == old(trace) + [HidClose(h)]
    {
      trace := trace + [HidClose(h)];
    }

    /** hid_exit. */
    method Exit()
      modifies this
      ensures trace == old(trace) + [HidExit]
    {
      trace := trace + [HidExit];
    }
  }
}
