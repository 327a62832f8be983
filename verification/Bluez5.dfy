/**
 Bluetooth accessories over BlueZ 5: which devices count as connected, and the connect and
 disconnect requests this gives rise to.
 */
module Bluez5 {
  import opened Wrappers

  datatype Uuid = A2dpSource | A2dpSink | HspHs | HspHsAlt | HspAg | HfpHf | HfpAg

  /** Device states; a pending transport counts as active. */
  datatype State = Disconnected | Connected | Idle | Active {
    function Rank(): nat {
      match this
      case Disconnected => 0
      case Connected => 1
      case Idle => 2
      case Active => 3
    }
  }

  datatype Kind = A2dp | Hsp
  datatype Request = Request(kind: Kind, connect: bool)

  datatype Device = Device(state: State, uuids: set<Uuid>, a2dp: bool, hsp: bool) {
    predicate Serves(kind: Kind) {
      match kind
      case A2dp => A2dpSink in uuids || A2dpSource in uuids
      case Hsp => HspHs in uuids || HspHsAlt in uuids
    }

    /** Whether the device is flagged as connected for the kind. */
    predicate Flagged(kind: Kind) {
      match kind
      case A2dp => a2dp
      case Hsp => hsp
    }

    /** A disconnected device has no flag set, and flags are only set for services offered. */
    ghost predicate Consistent() {
      forall kind: Kind :: Flagged(kind) ==> state != Disconnected && Serves(kind)
    }
  }

  const NewDevice: Device := Device(Disconnected, {}, false, false)

  type Devices = map<string, Device>

  function FlaggedPaths(devices: Devices, kind: Kind): set<string> {
    set p | p in devices && devices[p].Flagged(kind)
  }

  /** How many devices of the table are flagged. */
  function Count(devices: Devices, kind: Kind): nat {
    |FlaggedPaths(devices, kind)|
  }

  /** The A2DP part of a state change, with `count` flagged devices in the table. */
  function ChangeA2dp(d: Device, next: State, count: nat): (Device, Option<bool>) {
    if !d.Serves(A2dp) then (d, None)
    else if next.Rank() > Connected.Rank() then
      (d.(a2dp := true), if !d.a2dp && count == 0 then Some(true) else None)
    else if next == Disconnected then
      (d.(a2dp := false), if d.a2dp && count == 1 then Some(false) else None)
    else (d, None)
  }

  function ChangeHsp(d: Device, next: State, count: nat): (Device, Option<bool>) {
    if !d.Serves(Hsp) then (d, None)
    else if !d.hsp && next.Rank() >= Connected.Rank() then
      (d.(hsp := true), if count == 0 then Some(true) else None)
    else if d.hsp && next == Disconnected then
      (d.(hsp := false), if count == 1 then Some(false) else None)
    else (d, None)
  }

  function RequestOf(kind: Kind, connect: Option<bool>): seq<Request> {
    if connect == None then [] else [Request(kind, connect.value)]
  }

  /** A state change of a device, counted over `devices`. */
  function Changed(d: Device, next: State, devices: Devices): (Device, seq<Request>) {
    if d.state == next then (d, [])
    else
      var (d1, r1) := ChangeA2dp(d, next, Count(devices, A2dp));
      var (d2, r2) := ChangeHsp(d1, next, Count(devices, Hsp));
      (d2.(state := next), RequestOf(A2dp, r1) + RequestOf(Hsp, r2))
  }

  /** Where the n-th `c` of a string is, or its end if there are fewer. */
  function NthChar(s: string, c: char, n: nat): (at: nat)
    ensures at <= |s|
  {
    if s == [] then 0
    else if s[0] != c then 1 + NthChar(s[1..], c, n)
    else if n == 1 then 0
    else 1 + NthChar(s[1..], c, if n == 0 then 0 else n - 1)
  }

  /** The device part of a transport's path: all before the fifth slash. */
  function DevicePath(transport: string): string {
    transport[..NthChar(transport, '/', 5)]
  }

  /** The daemon's objects as known here, by path, and the requests made so far. */
  datatype World = World(devices: Devices, transports: map<string, string>, log: seq<Request>) {
    function Change(path: string, next: State): World
      requires path in devices
    {
      var (d, requests) := Changed(devices[path], next, devices);
      World(devices[path := d], transports, log + requests)
    }

    function GetDevice(path: string): World {
      if path in devices then this else this.(devices := devices[path := NewDevice])
    }

    function GetTransport(path: string): World {
      if path in transports then this else this.(transports := transports[path := DevicePath(path)])
    }

    /** Services once offered stay. */
    function Offer(path: string, uuids: set<Uuid>): World
      requires path in devices
    {
      var d := devices[path];
      this.(devices := devices[path := d.(uuids := d.uuids + uuids)])
    }

    /** The transport states reported, in turn. */
    function Follow(path: string, states: seq<State>): World
      requires path in devices
      decreases |states|
    {
      if states == [] then this else Change(path, states[0]).Follow(path, states[1..])
    }

    function RemoveTransport(path: string): World
      requires path in transports && transports[path] in devices
    {
      var device := transports[path];
      this.(transports := transports - {path}).Change(device,
        if devices[device].state.Rank() > Disconnected.Rank() then Connected else Disconnected)
    }

    /** The device leaves the table first, and is not counted any more when its state changes. */
    function RemoveDevice(path: string): World
      requires path in devices
    {
      var rest := devices - {path};
      var (d, requests) := Changed(devices[path], Disconnected, rest);
      World(rest, transports, log + requests)
    }

    function Disconnect(order: seq<string>): World
      requires forall p :: p in order ==> p in devices
      decreases |order|
    {
      if order == [] then this else Change(order[0], Disconnected).Disconnect(order[1..])
    }
  }

  // --- the invariant

  function Select(log: seq<Request>, kind: Kind): seq<bool> {
    if log == [] then []
    else
      var n := |log| - 1;
      Select(log[..n], kind) + if log[n].kind == kind then [log[n].connect] else []
  }

  /** Requests of a kind strictly alternate, and the last one connects iff a device is flagged. */
  ghost predicate Exact(w: World, kind: Kind) {
    var requests := Select(w.log, kind);
    && (forall i :: 0 <= i < |requests| ==> (requests[i] <==> i % 2 == 0))
    && (|requests| % 2 == 1 <==> Count(w.devices, kind) > 0)
  }

  /** Every transport's device is in the table. */
  ghost predicate Bound(w: World) {
    forall t :: t in w.transports ==> w.transports[t] in w.devices
  }

  ghost predicate Valid(w: World) {
    && (forall p :: p in w.devices ==> w.devices[p].Consistent())
    && Bound(w) && Exact(w, A2dp) && Exact(w, Hsp)
  }

  lemma {:induction false} SelectConcat(a: seq<Request>, b: seq<Request>, kind: Kind)
    ensures Select(a + b, kind) == Select(a, kind) + Select(b, kind)
  {
    if b == [] {
      assert a + b == a;
    } else {
      var n := |b| - 1;
      assert (a + b)[..|a| + n] == a + b[..n];
      SelectConcat(a, b[..n], kind);
    }
  }

  lemma {:induction false} SelectOfTwo(a2dp: Option<bool>, hsp: Option<bool>, kind: Kind)
    ensures Select(RequestOf(A2dp, a2dp) + RequestOf(Hsp, hsp), kind) ==
            match kind
            case A2dp => if a2dp == None then [] else [a2dp.value]
            case Hsp => if hsp == None then [] else [hsp.value]
  {
    SelectConcat(RequestOf(A2dp, a2dp), RequestOf(Hsp, hsp), kind);
  }

  lemma {:induction false} CardinalityStep<T>(a: set<T>, b: set<T>, x: T)
    requires a - {x} == b - {x}
    ensures |b| == |a| - (if x in a then 1 else 0) + (if x in b then 1 else 0)
  {
    assert a == (a - {x}) + if x in a then {x} else {};
    assert b == (b - {x}) + if x in b then {x} else {};
  }

  /** Replacing one device changes a count by its flag alone. */
  lemma {:induction false} CountUpdate(devices: Devices, path: string, d: Device, kind: Kind)
    ensures Count(devices[path := d], kind) ==
            Count(devices, kind)
            - (if path in devices && devices[path].Flagged(kind) then 1 else 0)
            + (if d.Flagged(kind) then 1 else 0)
  {
    var a, b := FlaggedPaths(devices, kind), FlaggedPaths(devices[path := d], kind);
    assert a - {path} == b - {path};
    CardinalityStep(a, b, path);
  }

  /** The request due for one kind: when the count leaves zero, and when it returns there. */
  function Due(was: bool, now: bool, count: nat): seq<bool> {
    if !was && now && count == 0 then [true]
    else if was && !now && count == 1 then [false]
    else []
  }

  lemma {:induction false} A2dpExactly(d: Device, next: State, count: nat)
    requires d.state != next && (d.a2dp ==> d.state != Disconnected && d.Serves(A2dp))
    ensures var (d', r) := ChangeA2dp(d, next, count);
            && d'.state == d.state && d'.uuids == d.uuids && d'.hsp == d.hsp
            && (if r == None then [] else [r.value]) == Due(d.a2dp, d'.a2dp, count)
            && (d'.a2dp ==> next != Disconnected && d.Serves(A2dp))
  {
  }

  lemma {:induction false} HspExactly(d: Device, next: State, count: nat)
    requires d.hsp ==> d.Serves(Hsp)
    ensures var (d', r) := ChangeHsp(d, next, count);
            && d'.state == d.state && d'.uuids == d.uuids && d'.a2dp == d.a2dp
            && (if r == None then [] else [r.value]) == Due(d.hsp, d'.hsp, count)
            && (d'.hsp ==> next != Disconnected && d.Serves(Hsp))
  {
  }

  lemma {:induction false} ConsistentIff(d: Device)
    ensures d.Consistent() <==>
            && (d.a2dp ==> d.state != Disconnected && d.Serves(A2dp))
            && (d.hsp ==> d.state != Disconnected && d.Serves(Hsp))
  {
    assert d.Flagged(A2dp) == d.a2dp && d.Flagged(Hsp) == d.hsp;
    forall k: Kind | (d.a2dp ==> d.state != Disconnected && d.Serves(A2dp)) && (d.hsp ==> d.state != Disconnected && d.Serves(Hsp))
      ensures d.Flagged(k) ==> d.state != Disconnected && d.Serves(k)
    {
      assert k == A2dp || k == Hsp;
    }
  }

  /** What a change does to one kind. */
  lemma {:induction false} ChangedExactly(d: Device, next: State, devices: Devices, kind: Kind)
    requires d.Consistent()
    ensures var (d', requests) := Changed(d, next, devices);
            && d'.Consistent() && d'.state == next && d'.uuids == d.uuids
            && Select(requests, kind) == Due(d.Flagged(kind), d'.Flagged(kind), Count(devices, kind))
  {
    hide ChangeA2dp, ChangeHsp, Due, Select, RequestOf, Count, Device.Consistent;
    if d.state == next {
      NothingDue(d.Flagged(kind), Count(devices, kind), kind);
    } else {
      var (d1, r1) := ChangeA2dp(d, next, Count(devices, A2dp));
      var (d2, r2) := ChangeHsp(d1, next, Count(devices, Hsp));
      ConsistentIff(d);
      A2dpExactly(d, next, Count(devices, A2dp));
      HspExactly(d1, next, Count(devices, Hsp));
      ConsistentIff(d2.(state := next));
      SelectOfTwo(r1, r2, kind);
    }
  }

  lemma {:induction false} NothingDue(flagged: bool, count: nat, kind: Kind)
    ensures Due(flagged, flagged, count) == [] && Select([], kind) == []
  {
  }

  /**
   For a kind the device serves, a change to another state flags HSP exactly when that state is not
   disconnected, and A2DP when it is one of a transport, or connected with the flag set already.
   */
  lemma {:induction false} FlagsFollowState(d: Device, next: State, devices: Devices)
    requires d.Consistent() && d.state != next
    ensures var d' := Changed(d, next, devices).0;
            && (d.Serves(Hsp) ==> (d'.hsp <==> next != Disconnected))
            && (d.Serves(A2dp) ==> (d'.a2dp <==> next == Idle || next == Active || (next == Connected && d.a2dp)))
            && (!d.Serves(Hsp) ==> !d'.hsp) && (!d.Serves(A2dp) ==> !d'.a2dp)
  {
    assert d.Flagged(Hsp) ==> d.state != Disconnected && d.Serves(Hsp);
    assert d.Flagged(A2dp) ==> d.state != Disconnected && d.Serves(A2dp);
  }

  /** Alternation goes on when a request is made exactly when due. */
  lemma {:induction false} AlternationGoesOn(requests: seq<bool>, count: nat, was: bool, now: bool)
    requires forall i :: 0 <= i < |requests| ==> (requests[i] <==> i % 2 == 0)
    requires |requests| % 2 == 1 <==> count > 0
    requires was ==> count > 0
    ensures var next := requests + Due(was, now, count);
            && (forall i :: 0 <= i < |next| ==> (next[i] <==> i % 2 == 0))
            && (|next| % 2 == 1 <==> count - (if was then 1 else 0) + (if now then 1 else 0) > 0)
  {
  }

  lemma {:induction false} ChangeKeepsExact(w: World, path: string, next: State, kind: Kind)
    requires Exact(w, kind) && path in w.devices && w.devices[path].Consistent()
    ensures Exact(w.Change(path, next), kind)
  {
    var d := w.devices[path];
    var (d', requests) := Changed(d, next, w.devices);
    ChangedExactly(d, next, w.devices, kind);
    SelectConcat(w.log, requests, kind);
    CountUpdate(w.devices, path, d', kind);
    if d.Flagged(kind) {
      assert path in FlaggedPaths(w.devices, kind);
    }
    AlternationGoesOn(Select(w.log, kind), Count(w.devices, kind), d.Flagged(kind), d'.Flagged(kind));
  }

  lemma {:induction false} ChangeKeepsValid(w: World, path: string, next: State)
    requires Valid(w) && path in w.devices
    ensures Valid(w.Change(path, next)) && w.Change(path, next).devices[path].state == next
    ensures w.Change(path, next).devices.Keys == w.devices.Keys
  {
    ChangedExactly(w.devices[path], next, w.devices, A2dp);
    ChangeKeepsExact(w, path, next, A2dp);
    ChangeKeepsExact(w, path, next, Hsp);
  }

  // --- runs

  datatype Event =
    | DeviceProperties(path: string, uuids: set<Uuid>, connected: Option<bool>)
    | TransportProperties(path: string, states: seq<State>)
    | Removed(path: string)
    | DaemonStopped(order: seq<string>)

  /**
   What may happen: transports belong to known devices, devices disconnect and lose their
   transports before they go, and the table is walked in some order.
   */
  ghost predicate Enabled(w: World, e: Event) {
    match e
    case DeviceProperties(_, _, _) => true
    case TransportProperties(path, _) => path in w.transports || DevicePath(path) in w.devices
    case Removed(path) =>
      path !in w.transports && path in w.devices ==>
        w.devices[path].state == Disconnected && forall t :: t in w.transports ==> w.transports[t] != path
    case DaemonStopped(order) => forall p :: p in order <==> p in w.devices
  }

  function After(w: World, e: Event): World
    requires Bound(w)
    requires e.TransportProperties? || e.DaemonStopped? ==> Enabled(w, e)
  {
    match e
    case DeviceProperties(path, uuids, connected) =>
      var w' := w.GetDevice(path).Offer(path, uuids);
      if connected == None then w' else w'.Change(path, if connected.value then Connected else Disconnected)
    case TransportProperties(path, states) =>
      var w' := w.GetTransport(path);
      w'.Follow(w'.transports[path], states)
    case Removed(path) =>
      if path in w.transports then w.RemoveTransport(path)
      else if path in w.devices then w.RemoveDevice(path)
      else w
    case DaemonStopped(order) =>
      w.Disconnect(order).(devices := map[], transports := map[])
  }

  /**
   When a transport goes, its device is connected still unless it was disconnected already, and
   nothing changes for other devices and transports. A connected device keeps its flags.
   */
  lemma {:induction false} TransportGone(w: World, path: string)
    requires Valid(w) && path in w.transports
    ensures var w', device := w.RemoveTransport(path), w.transports[path];
            && w'.transports == w.transports - {path}
            && w'.devices[device].state == (if w.devices[device].state == Disconnected then Disconnected else Connected)
            && (forall k: Kind :: w.devices[device].Flagged(k) ==> w'.devices[device].Flagged(k))
            && w'.devices.Keys == w.devices.Keys
            && forall p :: p in w.devices && p != device ==> w'.devices[p] == w.devices[p]
  {
    var d := w.devices[w.transports[path]];
    var next := if d.state.Rank() > Disconnected.Rank() then Connected else Disconnected;
    ConsistentIff(d);
    forall k: Kind
      ensures d.Flagged(k) ==> Changed(d, next, w.devices).0.Flagged(k)
    {
      assert k == A2dp || k == Hsp;
    }
  }

  /** At most one request of each kind comes from a change, that for A2DP first, and nothing from none. */
  lemma {:induction false} A2dpFirst(d: Device, next: State, devices: Devices)
    ensures var requests := Changed(d, next, devices).1;
            && |requests| <= 2
            && (|requests| == 2 ==> requests[0].kind == A2dp && requests[1].kind == Hsp)
            && (d.state == next ==> Changed(d, next, devices) == (d, []))
  {
  }

  /** Which services make a device count for what, once it plays. */
  lemma {:induction false} ServicesCount(u: Uuid, devices: Devices)
    ensures var d := Changed(Device(Disconnected, {u}, false, false), Active, devices).0;
            && (d.a2dp <==> u == A2dpSink || u == A2dpSource)
            && (d.hsp <==> u == HspHs || u == HspHsAlt)
            && d.state == Active && d.uuids == {u}
  {
  }

  lemma {:induction false} ChangedState(w: World, path: string, next: State)
    requires path in w.devices
    ensures w.Change(path, next).devices.Keys == w.devices.Keys && w.Change(path, next).devices[path].state == next
    ensures w.Change(path, next).transports == w.transports
  {
  }

  lemma {:induction false} FollowedState(w: World, path: string, states: seq<State>)
    requires path in w.devices
    ensures var w' := w.Follow(path, states);
            && w'.devices.Keys == w.devices.Keys && w'.transports == w.transports
            && w'.devices[path].state == if states == [] then w.devices[path].state else states[|states| - 1]
    decreases |states|
  {
    if states != [] {
      ChangedState(w, path, states[0]);
      FollowedState(w.Change(path, states[0]), path, states[1..]);
    }
  }

  /** What is announced last is the state of the device; a stopped daemon leaves nothing. */
  lemma {:induction false} EventsSetStates(w: World, e: Event)
    requires Bound(w) && Enabled(w, e)
    ensures match e
            case DeviceProperties(path, _, connected) =>
              var w' := After(w, e);
              && w'.devices.Keys == w.devices.Keys + {path} && w'.transports == w.transports
              && w'.devices[path].state == (match connected
                                            case Some(b) => if b then Connected else Disconnected
                                            case None => if path in w.devices then w.devices[path].state else Disconnected)
            case TransportProperties(path, states) =>
              var w' := After(w, e);
              && w'.devices.Keys == w.devices.Keys && w'.transports.Keys == w.transports.Keys + {path}
              && (path !in w.transports ==> w'.transports[path] == DevicePath(path))
              && (forall t :: t in w.transports ==> w'.transports[t] == w.transports[t])
              && (states != [] ==> w'.devices[w'.transports[path]].state == states[|states| - 1])
            case Removed(path) =>
              var w' := After(w, e);
              && w'.transports.Keys == w.transports.Keys - {path}
              && w'.devices.Keys == (if path in w.transports then w.devices.Keys else w.devices.Keys - {path})
            case DaemonStopped(_) => After(w, e).devices == map[] && After(w, e).transports == map[]
  {
    match e
    case DeviceProperties(path, uuids, connected) =>
      if connected != None {
        ChangedState(w.GetDevice(path).Offer(path, uuids), path, if connected.value then Connected else Disconnected);
      }
    case TransportProperties(path, states) =>
      var w' := w.GetTransport(path);
      FollowedState(w', w'.transports[path], states);
    case Removed(path) =>
    case DaemonStopped(_) =>
  }

  lemma {:induction false} SetDeviceKeepsValid(w: World, path: string, d: Device)
    requires Valid(w) && d.Consistent()
    requires if path in w.devices then forall k: Kind :: d.Flagged(k) == w.devices[path].Flagged(k)
             else forall k: Kind :: !d.Flagged(k)
    ensures Valid(w.(devices := w.devices[path := d]))
  {
    CountUpdate(w.devices, path, d, A2dp);
    CountUpdate(w.devices, path, d, Hsp);
  }

  /** More services: flags and state stay, and what was served still is. */
  lemma {:induction false} MoreServices(d: Device, uuids: set<Uuid>)
    requires d.Consistent()
    ensures var d' := d.(uuids := d.uuids + uuids);
            d'.Consistent() && forall k: Kind :: d'.Flagged(k) == d.Flagged(k) && (d.Serves(k) ==> d'.Serves(k))
  {
    var d' := d.(uuids := d.uuids + uuids);
    forall k: Kind
      ensures d'.Flagged(k) == d.Flagged(k) && (d.Serves(k) ==> d'.Serves(k))
    {
    }
    forall k: Kind
      ensures d'.Flagged(k) ==> d'.state != Disconnected && d'.Serves(k)
    {
      assert d.Flagged(k) ==> d.state != Disconnected && d.Serves(k);
    }
  }

  lemma {:induction false} NewKeepsValid(w: World, path: string)
    requires Valid(w)
    ensures Valid(w.GetDevice(path))
    ensures forall k: Kind :: Count(w.GetDevice(path).devices, k) == Count(w.devices, k)
  {
    if path !in w.devices {
      SetDeviceKeepsValid(w, path, NewDevice);
      forall k: Kind
        ensures Count(w.GetDevice(path).devices, k) == Count(w.devices, k)
      {
        CountUpdate(w.devices, path, NewDevice, k);
      }
    }
  }

  /** A device that offers services, new or not, offers them on top of those it had; nothing else changes. */
  lemma {:induction false} OfferKeepsValid(w: World, path: string, uuids: set<Uuid>)
    requires Valid(w)
    ensures Valid(w.GetDevice(path)) && Valid(w.GetDevice(path).Offer(path, uuids))
    ensures var was := if path in w.devices then w.devices[path] else NewDevice;
            var w' := w.GetDevice(path).Offer(path, uuids);
            var d := w'.devices[path];
            && (forall u :: u in d.uuids <==> u in was.uuids || u in uuids)
            && (forall k: Kind :: d.Flagged(k) == was.Flagged(k) && (was.Serves(k) ==> d.Serves(k))) && d.state == was.state
            && w'.devices.Keys == w.devices.Keys + {path}
            && (forall p :: p in w.devices && p != path ==> w'.devices[p] == w.devices[p])
            && w'.log == w.log && w'.transports == w.transports
            && forall k: Kind :: Count(w'.devices, k) == Count(w.devices, k)
  {
    hide Valid, Count, Exact, Bound, Device.Consistent;
    NewKeepsValid(w, path);
    var w' := w.GetDevice(path);
    var d := w'.devices[path];
    ValidIsConsistent(w', path);
    MoreServices(d, uuids);
    SetDeviceKeepsValid(w', path, d.(uuids := d.uuids + uuids));
    OfferKeepsCount(w', path, uuids);
  }

  lemma {:induction false} ValidIsConsistent(w: World, path: string)
    requires Valid(w) && path in w.devices
    ensures w.devices[path].Consistent()
  {
  }

  lemma {:induction false} OfferKeepsCount(w: World, path: string, uuids: set<Uuid>)
    requires path in w.devices
    ensures forall k: Kind :: Count(w.Offer(path, uuids).devices, k) == Count(w.devices, k)
  {
    forall k: Kind
      ensures Count(w.Offer(path, uuids).devices, k) == Count(w.devices, k)
    {
      CountUpdate(w.devices, path, w.Offer(path, uuids).devices[path], k);
    }
  }

  lemma {:induction false} FollowKeepsValid(w: World, path: string, states: seq<State>)
    requires Valid(w) && path in w.devices
    ensures Valid(w.Follow(path, states))
    decreases |states|
  {
    if states != [] {
      ChangeKeepsValid(w, path, states[0]);
      FollowKeepsValid(w.Change(path, states[0]), path, states[1..]);
    }
  }

  /** The walk leaves every device of the order disconnected, and those that were stay so. */
  lemma {:induction false} DisconnectKeepsValid(w: World, order: seq<string>)
    requires Valid(w) && forall p :: p in order ==> p in w.devices
    ensures var w' := w.Disconnect(order);
            && Valid(w') && w'.devices.Keys == w.devices.Keys
            && forall p :: p in w.devices && (p in order || w.devices[p].state == Disconnected) ==>
                             w'.devices[p].state == Disconnected
    decreases |order|
  {
    if order != [] {
      ChangeKeepsValid(w, order[0], Disconnected);
      var w1 := w.Change(order[0], Disconnected);
      DisconnectKeepsValid(w1, order[1..]);
      forall p | p in w.devices && (p in order || w.devices[p].state == Disconnected)
        ensures w.Disconnect(order).devices[p].state == Disconnected
      {
        assert order == [order[0]] + order[1..];
        assert p in order[1..] || w1.devices[p].state == Disconnected;
      }
    }
  }

  lemma {:induction false} NoneFlagged(devices: Devices, kind: Kind)
    requires forall p :: p in devices ==> !devices[p].Flagged(kind)
    ensures Count(devices, kind) == 0
  {
    assert FlaggedPaths(devices, kind) == {};
  }

  lemma {:induction false} StopKeepsValid(w: World, order: seq<string>)
    requires Valid(w) && forall p :: p in order <==> p in w.devices
    ensures Valid(w.Disconnect(order).(devices := map[], transports := map[]))
  {
    DisconnectKeepsValid(w, order);
    var w' := w.Disconnect(order);
    forall kind: Kind
      ensures Count(w'.devices, kind) == Count(map[], kind) == 0
    {
      NoneFlagged(w'.devices, kind);
      NoneFlagged(map[], kind);
    }
  }

  /** Alternation after a removal, counted when the device has gone. */
  lemma {:induction false} AlternationAfterRemoval(requests: seq<bool>, rest: nat, was: bool)
    requires forall i :: 0 <= i < |requests| ==> (requests[i] <==> i % 2 == 0)
    requires |requests| % 2 == 1 <==> rest > 0 || was
    ensures var next := requests + Due(was, false, rest);
            (forall i :: 0 <= i < |next| ==> (next[i] <==> i % 2 == 0)) && (|next| % 2 == 1 <==> rest > 0)
            <==> (was ==> rest > 1)
  {
  }

  lemma {:induction false} CountRemoval(devices: Devices, path: string, kind: Kind)
    requires path in devices
    ensures Count(devices, kind) == Count(devices - {path}, kind) + if devices[path].Flagged(kind) then 1 else 0
  {
    var a, b := FlaggedPaths(devices, kind), FlaggedPaths(devices - {path}, kind);
    assert a - {path} == b - {path};
    CardinalityStep(a, b, path);
  }

  /**
   Removing a device in whatever state: its kind stays exact if and only if it was not flagged or
   at least two other devices are, because it is counted after it has left the table.
   */
  lemma {:induction false} RemovalIsExact(w: World, path: string, kind: Kind)
    requires Exact(w, kind) && path in w.devices && w.devices[path].Consistent()
    ensures Exact(w.RemoveDevice(path), kind) <==>
            (w.devices[path].Flagged(kind) ==> Count(w.devices, kind) > 2)
  {
    var d, rest := w.devices[path], w.devices - {path};
    var (d', requests) := Changed(d, Disconnected, rest);
    ChangedExactly(d, Disconnected, rest, kind);
    assert !d'.Flagged(kind);
    SelectConcat(w.log, requests, kind);
    CountRemoval(w.devices, path, kind);
    AlternationAfterRemoval(Select(w.log, kind), Count(rest, kind), d.Flagged(kind));
  }

  lemma {:induction false} RemoveKeepsValid(w: World, path: string)
    requires Valid(w) && Enabled(w, Removed(path))
    ensures Valid(After(w, Removed(path)))
  {
    if path in w.transports {
      var device := w.transports[path];
      ChangeKeepsValid(w.(transports := w.transports - {path}), device,
                       if w.devices[device].state.Rank() > Disconnected.Rank() then Connected else Disconnected);
    } else if path in w.devices {
      RemovalIsExact(w, path, A2dp);
      RemovalIsExact(w, path, Hsp);
    }
  }

  lemma {:induction false} StepKeepsValid(w: World, e: Event)
    requires Valid(w) && Enabled(w, e)
    ensures Valid(After(w, e))
  {
    match e
    case DeviceProperties(path, uuids, connected) =>
      OfferKeepsValid(w, path, uuids);
      if connected != None {
        ChangeKeepsValid(w.GetDevice(path).Offer(path, uuids), path, if connected.value then Connected else Disconnected);
      }
    case TransportProperties(path, states) =>
      var w' := w.GetTransport(path);
      assert Valid(w');
      FollowKeepsValid(w', w'.transports[path], states);
    case Removed(path) => RemoveKeepsValid(w, path);
    case DaemonStopped(order) => StopKeepsValid(w, order);
  }

  /** The world after a run, if every event of it may happen. */
  ghost function Run(w: World, events: seq<Event>): Option<World>
    requires Valid(w)
    decreases |events|
  {
    if events == [] then Some(w)
    else if !Enabled(w, events[0]) then None
    else
      StepKeepsValid(w, events[0]);
      Run(After(w, events[0]), events[1..])
  }

  /**
   Over every run from the empty tables, the requests of each kind alternate, connect first, and
   the last one connects if and only if some device of the table is flagged for the kind. A
   disconnected device has no flag.
   */
  lemma {:induction false} CountingIsExact(w: World, events: seq<Event>, kind: Kind)
    requires Valid(w) && Run(w, events) != None
    ensures var w' := Run(w, events).value;
            && Exact(w', kind)
            && forall p :: p in w'.devices && w'.devices[p].state == Disconnected ==> !w'.devices[p].Flagged(kind)
    decreases |events|
  {
    if events == [] {
      assert Exact(w, kind) by {
        assert kind == A2dp || kind == Hsp;
      }
      forall p | p in w.devices && w.devices[p].state == Disconnected
        ensures !w.devices[p].Flagged(kind)
      {
        assert w.devices[p].Consistent();
      }
    } else {
      StepKeepsValid(w, events[0]);
      CountingIsExact(After(w, events[0]), events[1..], kind);
    }
  }

  /** A headset that vanishes while it is connected leaves its connection on: no disconnection is ever asked for. */
  lemma {:induction false} VanishedWhileConnected(path: string)
    ensures var start := World(map[], map[], []);
            var run := [DeviceProperties(path, {HspHs}, Some(true))];
            && Valid(start) && Run(start, run) != None
            && var w := Run(start, run).value;
               && path in w.devices && !Enabled(w, Removed(path))
               && Select(w.RemoveDevice(path).log, Hsp) == [true] && Count(w.RemoveDevice(path).devices, Hsp) == 0
               && !Exact(w.RemoveDevice(path), Hsp)
  {
    EmptyIsValid();
    var start := World(map[], map[], []);
    var e := DeviceProperties(path, {HspHs}, Some(true));
    var offering := Device(Disconnected, {HspHs}, false, false);
    var w1 := start.GetDevice(path).Offer(path, {HspHs});
    assert w1.devices == map[path := offering];
    NoneFlagged(w1.devices, A2dp);
    NoneFlagged(w1.devices, Hsp);
    var w := After(start, e);
    var d := Device(Connected, {HspHs}, false, true);
    assert w == World(map[path := d], map[], [Request(Hsp, true)]);
    assert Run(start, [e]) == Some(w) by {
      StepKeepsValid(start, e);
      assert [e][1..] == [];
    }
    assert w.devices - {path} == map[];
    NoneFlagged(map[], A2dp);
    NoneFlagged(map[], Hsp);
    assert w.RemoveDevice(path) == World(map[], map[], [Request(Hsp, true)]);
  }

  lemma {:induction false} EmptyIsValid()
    ensures Valid(World(map[], map[], []))
  {
    NoneFlagged(map[], A2dp);
    NoneFlagged(map[], Hsp);
  }
}
