/** The objects and loops behind the BlueZ 5 events. */
module BluezDevices {
  import opened Wrappers
  import opened Bluez5

  class BtDevice {
    const path: string
    var uuids: set<Uuid>
    var state: State
    var a2dp: bool
    var hsp: bool

    constructor (path: string)
      ensures this.path == path && Value() == NewDevice
    {
      this.path, uuids, state, a2dp, hsp := path, {}, Disconnected, false, false;
    }

    function Value(): Device
      reads this
    {
      Device(state, uuids, a2dp, hsp)
    }

    predicate Connected(kind: Kind)
      reads this
    {
      match kind
      case A2dp => a2dp
      case Hsp => hsp
    }
  }

  class BtTransport {
    const device: BtDevice

    constructor (device: BtDevice)
      ensures this.device == device
    {
      this.device := device;
    }
  }

  /** A device property, as announced. */
  datatype Property = Connection(connected: bool) | Uuids(texts: seq<string>) | OtherProperty

  // the texts of the service identifiers
  const BLUEZ_UUID_A2DP_SOURCE: string := "0000110a-0000-1000-8000-00805f9b34fb"
  const BLUEZ_UUID_A2DP_SINK: string := "0000110b-0000-1000-8000-00805f9b34fb"
  const BLUEZ_UUID_HSP_HS: string := "00001108-0000-1000-8000-00805f9b34fb"
  const BLUEZ_UUID_HSP_HS_ALT: string := "00001131-0000-1000-8000-00805f9b34fb"
  const BLUEZ_UUID_HSP_AG: string := "00001112-0000-1000-8000-00805f9b34fb"
  const BLUEZ_UUID_HFP_HF: string := "0000111e-0000-1000-8000-00805f9b34fb"
  const BLUEZ_UUID_HFP_AG: string := "0000111f-0000-1000-8000-00805f9b34fb"

  function UuidOf(text: string): Option<Uuid> {
    if text == BLUEZ_UUID_A2DP_SOURCE then Some(A2dpSource)
    else if text == BLUEZ_UUID_A2DP_SINK then Some(A2dpSink)
    else if text == BLUEZ_UUID_HSP_HS then Some(HspHs)
    else if text == BLUEZ_UUID_HSP_HS_ALT then Some(HspHsAlt)
    else if text == BLUEZ_UUID_HSP_AG then Some(HspAg)
    else if text == BLUEZ_UUID_HFP_HF then Some(HfpHf)
    else if text == BLUEZ_UUID_HFP_AG then Some(HfpAg)
    else None
  }

  function TransportState(text: string): Option<State> {
    if text == "active" || text == "pending" then Some(Active)
    else if text == "idle" then Some(Idle)
    else None
  }

  /** The last two digits of the number assigned to a service; the others are the same for all. */
  function Assigned(u: Uuid): (char, char) {
    match u
    case HspHs => ('0', '8')
    case A2dpSource => ('0', 'a')
    case A2dpSink => ('0', 'b')
    case HspAg => ('1', '2')
    case HfpHf => ('1', 'e')
    case HfpAg => ('1', 'f')
    case HspHsAlt => ('3', '1')
  }

  /** The text has the length of an identifier, and these digits. */
  ghost predicate Bears(text: string, u: Uuid) {
    |text| == 36 && (text[6], text[7]) == Assigned(u)
  }

  lemma {:induction false} A2dpSourceBears()
    ensures Bears(BLUEZ_UUID_A2DP_SOURCE, A2dpSource)
  {
  }

  lemma {:induction false} A2dpSinkBears()
    ensures Bears(BLUEZ_UUID_A2DP_SINK, A2dpSink)
  {
  }

  lemma {:induction false} HspHsBears()
    ensures Bears(BLUEZ_UUID_HSP_HS, HspHs)
  {
  }

  lemma {:induction false} HspHsAltBears()
    ensures Bears(BLUEZ_UUID_HSP_HS_ALT, HspHsAlt)
  {
  }

  lemma {:induction false} HspAgBears()
    ensures Bears(BLUEZ_UUID_HSP_AG, HspAg)
  {
  }

  lemma {:induction false} HfpHfBears()
    ensures Bears(BLUEZ_UUID_HFP_HF, HfpHf)
  {
  }

  lemma {:induction false} HfpAgBears()
    ensures Bears(BLUEZ_UUID_HFP_AG, HfpAg)
  {
  }

  lemma {:induction false} TextsBear()
    ensures Bears(BLUEZ_UUID_A2DP_SOURCE, A2dpSource)
    ensures Bears(BLUEZ_UUID_A2DP_SINK, A2dpSink)
    ensures Bears(BLUEZ_UUID_HSP_HS, HspHs)
    ensures Bears(BLUEZ_UUID_HSP_HS_ALT, HspHsAlt)
    ensures Bears(BLUEZ_UUID_HSP_AG, HspAg)
    ensures Bears(BLUEZ_UUID_HFP_HF, HfpHf)
    ensures Bears(BLUEZ_UUID_HFP_AG, HfpAg)
  {
    hide *;
    A2dpSourceBears();
    A2dpSinkBears();
    HspHsBears();
    HspHsAltBears();
    HspAgBears();
    HfpHfBears();
    HfpAgBears();
  }

  /** Each service has one text, which has the service's number in it. */
  lemma {:induction false} NamesOfServices(u: Uuid)
    ensures exists text :: UuidOf(text) == Some(u)
    ensures forall text :: UuidOf(text) == Some(u) ==> Bears(text, u)
  {
    hide BLUEZ_UUID_A2DP_SOURCE, BLUEZ_UUID_A2DP_SINK, BLUEZ_UUID_HSP_HS, BLUEZ_UUID_HSP_HS_ALT;
    hide BLUEZ_UUID_HSP_AG, BLUEZ_UUID_HFP_HF, BLUEZ_UUID_HFP_AG;
    TextsBear();
    assert UuidOf(BLUEZ_UUID_A2DP_SOURCE) == Some(A2dpSource);
    assert UuidOf(BLUEZ_UUID_A2DP_SINK) == Some(A2dpSink);
    assert UuidOf(BLUEZ_UUID_HSP_HS) == Some(HspHs);
    assert UuidOf(BLUEZ_UUID_HSP_HS_ALT) == Some(HspHsAlt);
    assert UuidOf(BLUEZ_UUID_HSP_AG) == Some(HspAg);
    assert UuidOf(BLUEZ_UUID_HFP_HF) == Some(HfpHf);
    assert UuidOf(BLUEZ_UUID_HFP_AG) == Some(HfpAg);
  }

  /** And a text reports a state exactly if it says idle, active or pending, which counts as active. */
  lemma {:induction false} NamesOfStates(text: string, s: State)
    ensures TransportState(text) == Some(s) <==>
            (s == Idle && text == "idle") || (s == Active && (text == "active" || text == "pending"))
  {
  }

  /** The services named by a list of strings. */
  ghost function Named(texts: seq<string>, uuidOf: string -> Option<Uuid>): set<Uuid> {
    set t | t in texts && uuidOf(t) != None :: uuidOf(t).value
  }

  ghost function Offered(properties: seq<Property>): set<Uuid> {
    if properties == [] then {}
    else
      var n := |properties| - 1;
      Offered(properties[..n]) +
      if properties[n].Uuids? then Named(properties[n].texts, UuidOf) else {}
  }

  /** The last connection state announced. */
  ghost function Announced(properties: seq<Property>): Option<bool> {
    if properties == [] then None
    else
      var n := |properties| - 1;
      if properties[n].Connection? then Some(properties[n].connected) else Announced(properties[..n])
  }

  ghost function Reported(texts: seq<string>, stateOf: string -> Option<State>): seq<State> {
    if texts == [] then []
    else
      var n := |texts| - 1;
      var next := stateOf(texts[n]);
      Reported(texts[..n], stateOf) + if next == None then [] else [next.value]
  }

  /** What a list of properties offers is what any text of it names. */
  lemma {:induction false} OfferedIsNamed(properties: seq<Property>, u: Uuid)
    ensures u in Offered(properties) <==>
            exists p, t :: p in properties && p.Uuids? && t in p.texts && UuidOf(t) == Some(u)
  {
    if properties != [] {
      var n := |properties| - 1;
      OfferedIsNamed(properties[..n], u);
      assert properties == properties[..n] + [properties[n]];
      if properties[n].Uuids? && u in Named(properties[n].texts, UuidOf) {
        var t :| t in properties[n].texts && UuidOf(t) == Some(u);
        assert properties[n] in properties;
      }
    }
  }

  /** The connection state announced is the last of the list. */
  lemma {:induction false} AnnouncedIsLast(before: seq<Property>, connected: bool, after: seq<Property>)
    requires forall p :: p in after ==> !p.Connection?
    ensures Announced(before + [Connection(connected)] + after) == Some(connected)
    ensures Announced(after) == None
    decreases |after|
  {
    var all := before + [Connection(connected)] + after;
    if after == [] {
      assert all == before + [Connection(connected)];
    } else {
      var n := |after| - 1;
      assert all[..|all| - 1] == before + [Connection(connected)] + after[..n];
      AnnouncedIsLast(before, connected, after[..n]);
    }
  }

  /** The states reported are those of the texts that report one, in order. */
  lemma {:induction false} ReportedInOrder(a: seq<string>, b: seq<string>, stateOf: string -> Option<State>)
    ensures Reported(a + b, stateOf) == Reported(a, stateOf) + Reported(b, stateOf)
    ensures |b| == 1 ==> Reported(b, stateOf) == match stateOf(b[0])
                                                 case None => []
                                                 case Some(s) => [s]
    decreases |b|
  {
    if b == [] {
      assert a + b == a;
    } else {
      var n := |b| - 1;
      assert (a + b)[..|a| + n] == a + b[..n];
      ReportedInOrder(a, b[..n], stateOf);
      var tail := if stateOf(b[n]) == None then [] else [stateOf(b[n]).value];
      assert Reported(b, stateOf) == Reported(b[..n], stateOf) + tail;
      assert Reported(a, stateOf) + Reported(b[..n], stateOf) + tail == Reported(a, stateOf) + (Reported(b[..n], stateOf) + tail);
    }
  }

  lemma {:induction false} NamedSnoc(texts: seq<string>, text: string, uuidOf: string -> Option<Uuid>)
    ensures Named(texts + [text], uuidOf) ==
            Named(texts, uuidOf) + if uuidOf(text) == None then {} else {uuidOf(text).value}
  {
  }

  method AddUuids(d: BtDevice, texts: seq<string>, uuidOf: string -> Option<Uuid>)
    modifies d`uuids
    ensures d.uuids == old(d.uuids) + Named(texts, uuidOf)
  {
    for i := 0 to |texts|
      invariant d.uuids == old(d.uuids) + Named(texts[..i], uuidOf)
    {
      var uuid := uuidOf(texts[i]);
      assert texts[..i + 1] == texts[..i] + [texts[i]];
      NamedSnoc(texts[..i], texts[i], uuidOf);
      if uuid != None {
        d.uuids := d.uuids + {uuid.value};
      }
    }
    assert texts[..|texts|] == texts;
  }

  method FindNthChar(s: string, c: char, n: nat) returns (at: nat)
    ensures at == NthChar(s, c, n)
  {
    var count := 0;
    at := 0;
    while at < |s|
      invariant at <= |s| && (count < n || n == 0)
      invariant NthChar(s, c, n) == at + NthChar(s[at..], c, if n == 0 then 0 else n - count)
    {
      assert s[at..][1..] == s[at + 1..];
      if s[at] == c {
        count := count + 1;
        if count == n { return; }
      }
      at := at + 1;
    }
  }

  function Slashes(s: string): nat {
    if s == [] then 0 else (if s[0] == '/' then 1 else 0) + Slashes(s[1..])
  }

  lemma {:induction false} NthSlash(s: string, n: nat)
    requires n > 0
    ensures var at := NthChar(s, '/', n);
            if at < |s| then s[at] == '/' && Slashes(s[..at]) == n - 1 else Slashes(s) < n
  {
    var at := NthChar(s, '/', n);
    if s != [] {
      if s[0] == '/' && n == 1 {
        assert s[..0] == [];
      } else {
        NthSlash(s[1..], if s[0] == '/' then n - 1 else n);
        if at < |s| {
          assert s[..at][1..] == s[1..][..at - 1];
        }
      }
    }
  }

  /** The device of a transport's path is all of it, or what has four slashes and stands before a fifth. */
  lemma {:induction false} DevicePathIsStem(transport: string)
    ensures var device := DevicePath(transport);
            && device <= transport
            && if device == transport then Slashes(device) <= 4
               else Slashes(device) == 4 && transport[|device|] == '/'
  {
    NthSlash(transport, 5);
    var at := NthChar(transport, '/', 5);
    if at == |transport| {
      assert DevicePath(transport) == transport;
    }
  }

  lemma {:induction false} OneLess<T>(a: set<T>, rest: set<T>, x: T)
    requires x in rest
    ensures |a * rest| == |a * (rest - {x})| + if x in a then 1 else 0
  {
    assert a * rest - {x} == a * (rest - {x});
  }

  lemma {:induction false} WithinAll<T>(a: set<T>, all: set<T>)
    requires a <= all
    ensures |a * all| == |a|
  {
    assert a * all == a;
  }

  lemma {:induction false} FollowSnoc(w: World, path: string, states: seq<State>, next: State)
    requires path in w.devices
    ensures path in w.Follow(path, states).devices
    ensures w.Follow(path, states + [next]) == w.Follow(path, states).Change(path, next)
    decreases |states|
  {
    if states != [] {
      assert (states + [next])[1..] == states[1..] + [next];
      FollowSnoc(w.Change(path, states[0]), path, states[1..], next);
    }
  }

  lemma {:induction false} DisconnectSnoc(w: World, order: seq<string>, path: string)
    requires path in w.devices && forall p :: p in order ==> p in w.devices
    ensures path in w.Disconnect(order).devices
    ensures w.Disconnect(order + [path]) == w.Disconnect(order).Change(path, Disconnected)
    decreases |order|
  {
    if order != [] {
      assert (order + [path])[1..] == order[1..] + [path];
      DisconnectSnoc(w.Change(order[0], Disconnected), order[1..], path);
    }
  }

  lemma {:induction false} FollowMore(w: World, path: string, states: seq<State>, next: Option<State>)
    requires path in w.devices
    ensures path in w.Follow(path, states).devices
    ensures w.Follow(path, states + if next == None then [] else [next.value]) ==
            if next == None then w.Follow(path, states) else w.Follow(path, states).Change(path, next.value)
  {
    FollowSnoc(w, path, states, if next == None then Disconnected else next.value);
    assert states + [] == states;
  }

  lemma {:induction false} ReportedSnoc(texts: seq<string>, i: nat, stateOf: string -> Option<State>)
    requires i < |texts|
    ensures Reported(texts[..i + 1], stateOf) ==
            Reported(texts[..i], stateOf) + if stateOf(texts[i]) == None then [] else [stateOf(texts[i]).value]
  {
    assert texts[..i + 1][..i] == texts[..i];
  }

  class Bluez {
    var devices: map<string, BtDevice>
    var transports: map<string, BtTransport>
    var log: seq<Request>

    constructor ()
      ensures devices == map[] && transports == map[] && log == []
    {
      devices, transports, log := map[], map[], [];
    }

    /** Devices are filed under their paths, and transports point to devices of the table. */
    ghost predicate Linked()
      reads this
    {
      && (forall p :: p in devices ==> devices[p].path == p)
      && (forall t :: t in transports ==>
            transports[t].device.path in devices && devices[transports[t].device.path] == transports[t].device)
    }

    ghost function Table(): Devices
      reads this, devices.Values
    {
      map p | p in devices :: devices[p].Value()
    }

    ghost function Owners(): map<string, string>
      reads this
    {
      map t | t in transports :: transports[t].device.path
    }

    ghost function View(): World
      reads this, devices.Values
    {
      World(Table(), Owners(), log)
    }

    /** The walk over the table, in whatever order it gives its devices. */
    method CountConnected(kind: Kind, ghost flagged: set<string>) returns (connected: nat)
      requires flagged <= devices.Keys
      requires forall p :: p in devices ==> (p in flagged <==> devices[p].Connected(kind))
      ensures connected == |flagged|
    {
      connected := 0;
      var rest := devices.Keys;
      WithinAll(flagged, rest);
      while rest != {}
        invariant rest <= devices.Keys && connected + |flagged * rest| == |flagged|
        decreases rest
      {
        var path :| path in rest;
        OneLess(flagged, rest, path);
        if devices[path].Connected(kind) {
          connected := connected + 1;
        }
        rest := rest - {path};
      }
      assert flagged * rest == {};
    }

    method DevicesConnected(kind: Kind) returns (connected: nat)
      ensures connected == Count(Table(), kind)
    {
      ghost var flagged := FlaggedPaths(Table(), kind);
      connected := CountConnected(kind, flagged);
    }

    /** The A2DP half of a state change. */
    method ChangeStateA2dp(d: BtDevice, next: State)
      modifies d`a2dp, this`log
      ensures var (v, r) := ChangeA2dp(old(d.Value()), next, Count(old(Table()), A2dp));
              d.Value() == v && log == old(log) + RequestOf(A2dp, r)
    {
      if d.Value().Serves(A2dp) {
        if next.Rank() > Connected.Rank() {
          if !d.a2dp {
            var n := DevicesConnected(A2dp);
            if n == 0 {
              log := log + [Request(A2dp, true)];
            }
          }
          d.a2dp := true;
        } else if next == Disconnected {
          if d.a2dp {
            var n := DevicesConnected(A2dp);
            if n == 1 {
              log := log + [Request(A2dp, false)];
            }
          }
          d.a2dp := false;
        }
      }
    }

    method ChangeStateHsp(d: BtDevice, next: State)
      modifies d`hsp, this`log
      ensures var (v, r) := ChangeHsp(old(d.Value()), next, Count(old(Table()), Hsp));
              d.Value() == v && log == old(log) + RequestOf(Hsp, r)
    {
      if d.Value().Serves(Hsp) {
        if !d.hsp && next.Rank() >= Connected.Rank() {
          var n := DevicesConnected(Hsp);
          if n == 0 {
            log := log + [Request(Hsp, true)];
          }
          d.hsp := true;
        } else if d.hsp && next == Disconnected {
          var n := DevicesConnected(Hsp);
          if n == 1 {
            log := log + [Request(Hsp, false)];
          }
          d.hsp := false;
        }
      }
    }

    /** A state change of a device, which may have left the table. */
    method StateChanged(d: BtDevice, next: State)
      modifies d`state, d`a2dp, d`hsp, this`log
      ensures var (v, r) := Changed(old(d.Value()), next, old(Table()));
              d.Value() == v && log == old(log) + r
    {
      hide ChangeA2dp, ChangeHsp, RequestOf, Device.Serves;
      if d.state == next { return; }
      ghost var table := Table();
      ChangeStateA2dp(d, next);
      assert FlaggedPaths(Table(), Hsp) == FlaggedPaths(table, Hsp);
      ChangeStateHsp(d, next);
      d.state := next;
    }

    /** A state change of a device of the table. */
    method Change(d: BtDevice, next: State)
      requires Linked() && d.path in devices && devices[d.path] == d
      modifies d`state, d`a2dp, d`hsp, this`log
      ensures View() == old(View()).Change(d.path, next)
    {
      ghost var w := View();
      StateChanged(d, next);
      assert Table() == w.Change(d.path, next).devices;
    }

    /** The device of a path, made when first heard of. */
    method GetDevice(path: string) returns (d: BtDevice)
      requires Linked()
      modifies this`devices
      ensures Linked() && path in devices && devices[path] == d
      ensures View() == old(View()).GetDevice(path)
      ensures d in old(devices.Values) || fresh(d)
      ensures forall p :: p in devices ==> p == path || p in old(devices)
    {
      if path in devices {
        d := devices[path];
      } else {
        ghost var w := View();
        d := new BtDevice(path);
        devices := devices[path := d];
        assert Table() == w.GetDevice(path).devices;
      }
    }

    /** The properties in turn: services are added, the last connection state is kept. */
    method ReadProperties(d: BtDevice, properties: seq<Property>) returns (connected: Option<bool>)
      modifies d`uuids
      ensures d.uuids == old(d.uuids) + Offered(properties) && connected == Announced(properties)
    {
      connected := None;
      for i := 0 to |properties|
        invariant d.uuids == old(d.uuids) + Offered(properties[..i])
        invariant connected == Announced(properties[..i])
      {
        assert properties[..i + 1][..i] == properties[..i];
        match properties[i] {
          case Connection(c) => connected := Some(c);
          case Uuids(texts) => AddUuids(d, texts, UuidOf);
          case OtherProperty =>
        }
      }
      assert properties[..|properties|] == properties;
    }

    method ParseDeviceProperties(d: BtDevice, properties: seq<Property>)
      requires Linked() && d.path in devices && devices[d.path] == d
      modifies d, this`log
      ensures var w := old(View()).Offer(d.path, Offered(properties));
              var connected := Announced(properties);
              View() == if connected == None then w
                        else w.Change(d.path, if connected.value then Connected else Disconnected)
    {
      ghost var w := View();
      var connected := ReadProperties(d, properties);
      assert Table() == w.Offer(d.path, Offered(properties)).devices;
      assert View() == w.Offer(d.path, Offered(properties));
      if connected != None {
        Change(d, if connected.value then Connected else Disconnected);
      }
    }

    method DeviceAnnounced(path: string, properties: seq<Property>)
      requires Linked()
      modifies this, devices.Values
      ensures Linked()
      ensures View() == After(old(View()), DeviceProperties(path, Offered(properties), Announced(properties)))
    {
      var d := GetDevice(path);
      ParseDeviceProperties(d, properties);
    }

    /** The transport of a path, made when first heard of; its device must be known. */
    method GetTransport(path: string) returns (d: BtDevice)
      requires Linked()
      requires path in transports || DevicePath(path) in devices
      modifies this`transports
      ensures Linked() && View() == old(View()).GetTransport(path)
      ensures d.path in devices && devices[d.path] == d
      ensures View().transports[path] == d.path
    {
      if path in transports {
        d := transports[path].device;
      } else {
        ghost var w := View();
        var at := FindNthChar(path, '/', 5);
        d := devices[path[..at]];
        var t := new BtTransport(d);
        transports := transports[path := t];
        assert Owners() == w.GetTransport(path).transports;
      }
    }

    method ParseTransportProperty(d: BtDevice, next: Option<State>)
      requires Linked() && d.path in devices && devices[d.path] == d
      modifies d`state, d`a2dp, d`hsp, this`log
      ensures View() == if next == None then old(View()) else old(View()).Change(d.path, next.value)
    {
      if next != None {
        Change(d, next.value);
      }
    }

    method ParseTransportProperties(d: BtDevice, texts: seq<string>, stateOf: string -> Option<State>)
      requires Linked() && d.path in devices && devices[d.path] == d
      modifies d`state, d`a2dp, d`hsp, this`log
      ensures View() == old(View()).Follow(d.path, Reported(texts, stateOf))
    {
      ghost var w := View();
      for i := 0 to |texts|
        invariant View() == w.Follow(d.path, Reported(texts[..i], stateOf))
      {
        ReportedSnoc(texts, i, stateOf);
        FollowMore(w, d.path, Reported(texts[..i], stateOf), stateOf(texts[i]));
        ParseTransportProperty(d, stateOf(texts[i]));
      }
      assert texts[..|texts|] == texts;
    }

    method TransportAnnounced(path: string, texts: seq<string>)
      requires Linked() && Enabled(View(), TransportProperties(path, Reported(texts, TransportState)))
      modifies this, devices.Values
      ensures Linked()
      ensures View() == After(old(View()), TransportProperties(path, Reported(texts, TransportState)))
    {
      var d := GetTransport(path);
      ParseTransportProperties(d, texts, TransportState);
    }

    method StealTransport(path: string) returns (d: BtDevice)
      requires Linked() && path in transports
      modifies this`transports
      ensures Linked() && View() == old(View()).(transports := old(View()).transports - {path})
      ensures d.path in devices && devices[d.path] == d && d.path == old(View()).transports[path]
    {
      ghost var owners := Owners();
      d := transports[path].device;
      transports := transports - {path};
      assert Owners() == owners - {path};
    }

    method TransportRemoved(path: string)
      requires Linked() && path in transports
      modifies this, devices.Values
      ensures Linked() && View() == old(View()).RemoveTransport(path)
    {
      var d := StealTransport(path);
      Change(d, if d.state.Rank() > Disconnected.Rank() then Connected else Disconnected);
    }

    /** A device disconnects that is in the table no more, though some transport may still point to it. */
    method ChangeAway(d: BtDevice)
      requires d !in devices.Values
      modifies d`state, d`a2dp, d`hsp, this`log
      ensures Table() == old(Table()) && Owners() == old(Owners())
      ensures log == old(log) + Changed(old(d.Value()), Disconnected, old(Table())).1
    {
      StateChanged(d, Disconnected);
    }

    method DeviceRemoved(path: string)
      requires Linked() && path in devices
      modifies this, devices.Values
      ensures View() == old(View()).RemoveDevice(path)
      ensures devices == old(devices) - {path} && transports == old(transports)
      ensures (forall t :: t in old(View()).transports ==> old(View()).transports[t] != path) ==> Linked()
    {
      ghost var w := View();
      var d := devices[path];
      devices := devices - {path};
      assert Table() == w.devices - {path};
      assert (forall t :: t in transports ==> w.transports[t] == transports[t].device.path);
      ChangeAway(d);
    }

    /** A transport or a device has gone; it leaves its table before the state change. */
    method InterfacesRemoved(path: string)
      requires Linked()
      modifies this, devices.Values
      ensures View() == After(old(View()), Removed(path))
      ensures Enabled(old(View()), Removed(path)) ==> Linked()
    {
      if path in transports {
        TransportRemoved(path);
      } else if path in devices {
        DeviceRemoved(path);
      }
    }

    method DisconnectAll() returns (ghost order: seq<string>)
      requires Linked()
      modifies devices.Values, this`log
      ensures forall p :: p in order <==> p in devices
      ensures View() == old(View()).Disconnect(order)
    {
      hide Changed, World.Change, Bluez.Owners;
      ghost var w := View();
      order := [];
      var rest := devices.Keys;
      while rest != {}
        invariant rest <= devices.Keys && forall p :: p in order <==> p in devices.Keys - rest
        invariant View() == w.Disconnect(order)
        decreases rest
      {
        var path :| path in rest;
        DisconnectSnoc(w, order, path);
        Change(devices[path], Disconnected);
        rest, order := rest - {path}, order + [path];
      }
    }

    /** The daemon has gone: every device is disconnected, in the table's order, and forgotten. */
    method DaemonState(running: bool) returns (ghost order: seq<string>)
      requires Linked()
      modifies this, devices.Values
      ensures Linked()
      ensures running ==> View() == old(View())
      ensures !running ==> Enabled(old(View()), DaemonStopped(order)) && View() == After(old(View()), DaemonStopped(order))
    {
      order := [];
      if !running {
        order := DisconnectAll();
        transports := map[];
        devices := map[];
      }
    }
  }
}
