// Stream and device reference counting of the audio route manager
// (configmgr/audio_config.c, "Routing control" and "Stream control").

// Device masks. A 32-bit mask is the set of its bit numbers: & is intersection, & ~ is difference, | is union.
module RouteBits {
  type Bit = i: int | 0 <= i < 32
  type Mask = set<Bit>

  const IN_BIT: Bit := 31
  const BIT_IN: Mask := {IN_BIT}    // AUDIO_DEVICE_BIT_IN

  // `mask` names the device type `kind` by a bit other than the direction flag.
  predicate Has(mask: Mask, kind: Mask) {
    exists i | i in mask :: i in kind && i != IN_BIT
  }

  // The test of apply_paths_to_devices_l.
  predicate Hit(kind: Mask, inFlag: Mask, mask: Mask) {
    inFlag <= kind && exists i | i in mask :: i in kind
  }

  predicate In(mask: Mask) {
    IN_BIT in mask
  }

  // A route names a device type of its own direction.
  predicate Names(route: Mask, kind: Mask) {
    Has(route, kind) && In(route) == In(kind)
  }

  predicate Flagless(mask: Mask) {
    IN_BIT !in mask
  }

  // The type has one bit besides the direction flag.
  ghost predicate SingleBit(kind: Mask) {
    exists i: Bit :: i != IN_BIT && kind - BIT_IN == {i}
  }

  // The devices a stream stops using, and the ones it starts using.
  function Leaving(current: Mask, route: Mask): Mask {
    current - route
  }

  function Entering(current: Mask, route: Mask): Mask {
    route - current
  }

  // Where a bit is named only before, or only after, it is among what leaves, or what enters.
  lemma DifferenceMarks(current: Mask, route: Mask, kind: Mask)
    ensures Has(Leaving(current, route), kind) ==> Has(current, kind)
    ensures Has(Entering(current, route), kind) ==> Has(route, kind)
    ensures !Has(route, kind) ==> Has(Leaving(current, route), kind) == Has(current, kind)
    ensures !Has(current, kind) ==> Has(Entering(current, route), kind) == Has(route, kind)
  {
  }

  lemma SingleBitMarks(current: Mask, route: Mask, kind: Mask)
    requires SingleBit(kind)
    ensures Has(Leaving(current, route), kind) <==> Has(current, kind) && !Has(route, kind)
    ensures Has(Entering(current, route), kind) <==> Has(route, kind) && !Has(current, kind)
  {
    var i: Bit :| i != IN_BIT && kind - BIT_IN == {i};
    OneBit(current, kind, i);
    OneBit(route, kind, i);
    OneBit(Leaving(current, route), kind, i);
    OneBit(Entering(current, route), kind, i);
  }

  lemma OneBit(mask: Mask, kind: Mask, i: Bit)
    requires i != IN_BIT && kind - BIT_IN == {i}
    ensures Has(mask, kind) <==> i in mask
  {
    assert i in kind - BIT_IN;
    assert forall j: Bit | j in kind && j != IN_BIT :: j in kind - BIT_IN;
  }

  lemma NamesOwnDirection(route: Mask, kind: Mask, input: bool)
    requires route != {} ==> In(route) == input
    ensures Names(route, kind) <==> Has(route, kind) && In(kind) == input
  {
  }

  // The platform masks that apply_route puts on a new route.
  function MaskedRoute(route: Mask, inAll: Mask, outAll: Mask): Mask {
    if route == {} then {} else if In(route) then route * inAll + BIT_IN else route * outAll
  }

  // Masking keeps the direction of a route and names nothing new.
  lemma MaskedRouteNames(route: Mask, inAll: Mask, outAll: Mask, kind: Mask)
    ensures Has(MaskedRoute(route, inAll, outAll), kind) ==> Has(route, kind)
    ensures route != {} ==> In(MaskedRoute(route, inAll, outAll)) == In(route)
    ensures route == {} ==> MaskedRoute(route, inAll, outAll) == {}
  {
  }

  // The global device has no bits, and an empty mask names nothing.
  lemma NothingHasGlobal(mask: Mask, inFlag: Mask)
    ensures !Has(mask, {}) && !Hit({}, inFlag, mask)
    ensures forall kind: Mask :: !Has({}, kind)
  {
  }

  lemma EmptyHitsNothing(kind: Mask, inFlag: Mask)
    ensures !Hit(kind, inFlag, {})
  {
  }

  // Clearing another device's bits from the remaining mask does not hide a device that shares none of them.
  lemma HitAfterTurn(kind: Mask, other: Mask, inFlag: Mask, mask: Mask, takes: bool)
    requires !Has(other, kind) && Flagless(mask)
    ensures Hit(kind, inFlag, if takes then mask - other else mask) == Hit(kind, inFlag, mask)
  {
  }

  // What the walk tests, before it has cleared anything: named by a bit, and input if the mask is flagged.
  lemma HitIsHas(mask: Mask, kind: Mask)
    ensures Hit(kind, mask * BIT_IN, mask - BIT_IN) <==> Has(mask, kind) && (In(mask) ==> In(kind))
  {
  }
}

// Which devices one walk over the device list reaches, and when those are the ones meant.
module DeviceWalk {
  import opened RouteBits

  // The devices from k on that the walk reaches, `mask` being what is left of the devices asked for. A device
  // that is reached takes its bits out of the mask, whatever its direction.
  ghost function Reached(kinds: seq<Mask>, k: nat, inFlag: Mask, mask: Mask): (r: set<nat>)
    requires k <= |kinds|
    ensures forall d | d in r :: k <= d < |kinds|
    decreases |kinds| - k
  {
    if k == |kinds| || mask == {} then {}
    else if Hit(kinds[k], inFlag, mask) then {k} + Reached(kinds, k + 1, inFlag, mask - kinds[k])
    else Reached(kinds, k + 1, inFlag, mask)
  }

  // What one device leaves of the mask.
  function Rest(kind: Mask, inFlag: Mask, mask: Mask): Mask {
    if Hit(kind, inFlag, mask) then mask - kind else mask
  }

  lemma ReachedStep(kinds: seq<Mask>, k: nat, inFlag: Mask, mask: Mask)
    requires k < |kinds| && mask != {}
    ensures k in Reached(kinds, k, inFlag, mask) <==> Hit(kinds[k], inFlag, mask)
    ensures forall j | k + 1 <= j < |kinds| ::
      j in Reached(kinds, k, inFlag, mask) <==> j in Reached(kinds, k + 1, inFlag, Rest(kinds[k], inFlag, mask))
  {
  }

  // What is left of the mask at device d once the devices of w declared from k on have taken their bits.
  ghost function Left(kinds: seq<Mask>, k: nat, w: set<nat>, mask: Mask, d: nat): Mask
    requires k <= d <= |kinds|
    decreases d
  {
    if d == k then mask
    else
      var rest := Left(kinds, k, w, mask, d - 1);
      if d - 1 in w then rest - kinds[d - 1] else rest
  }

  // d belongs to w exactly when the walk, having served w so far, would reach it.
  ghost predicate FairAt(kinds: seq<Mask>, k: nat, inFlag: Mask, mask: Mask, w: set<nat>, d: nat)
    requires k <= d < |kinds|
  {
    d in w <==> Hit(kinds[d], inFlag, Left(kinds, k, w, mask, d))
  }

  ghost predicate Fair(kinds: seq<Mask>, k: nat, inFlag: Mask, mask: Mask, w: set<nat>)
    requires k <= |kinds|
  {
    forall d: nat | k <= d < |kinds| :: FairAt(kinds, k, inFlag, mask, w, d)
  }

  lemma {:induction false} LeftFromNext(kinds: seq<Mask>, k: nat, w: set<nat>, mask: Mask, d: nat)
    requires k < d <= |kinds|
    ensures Left(kinds, k, w, mask, d) == Left(kinds, k + 1, w, if k in w then mask - kinds[k] else mask, d)
    decreases d
  {
    if d > k + 1 {
      LeftFromNext(kinds, k, w, mask, d - 1);
    }
  }

  lemma {:induction false} LeftOfSame(kinds: seq<Mask>, k: nat, v: set<nat>, w: set<nat>, mask: Mask, d: nat)
    requires k <= d <= |kinds| && forall e | k <= e < d :: e in v <==> e in w
    ensures Left(kinds, k, v, mask, d) == Left(kinds, k, w, mask, d)
    decreases d
  {
    if d > k {
      LeftOfSame(kinds, k, v, w, mask, d - 1);
    }
  }

  lemma {:induction false} LeftOfZero(kinds: seq<Mask>, k: nat, w: set<nat>, d: nat)
    requires k <= d <= |kinds|
    ensures Left(kinds, k, w, {}, d) == {}
    decreases d
  {
    if d > k {
      LeftOfZero(kinds, k, w, d - 1);
    }
  }

  // What the walk reaches is fair.
  lemma {:induction false} ReachedIsFair(kinds: seq<Mask>, k: nat, inFlag: Mask, mask: Mask, d: nat)
    requires k <= d < |kinds|
    ensures FairAt(kinds, k, inFlag, mask, Reached(kinds, k, inFlag, mask), d)
    decreases |kinds| - k
  {
    var r := Reached(kinds, k, inFlag, mask);
    if mask == {} {
      LeftOfZero(kinds, k, r, d);
      EmptyHitsNothing(kinds[d], inFlag);
    } else if d > k {
      var rest := if Hit(kinds[k], inFlag, mask) then mask - kinds[k] else mask;
      var r1 := Reached(kinds, k + 1, inFlag, rest);
      ReachedIsFair(kinds, k + 1, inFlag, rest, d);
      LeftFromNext(kinds, k, r, mask, d);
      LeftOfSame(kinds, k + 1, r, r1, rest, d);
    }
  }

  // And nothing else is: fairness determines the set.
  lemma {:induction false} FairIsUnique(kinds: seq<Mask>, k: nat, inFlag: Mask, mask: Mask,
                                        v: set<nat>, w: set<nat>, d: nat)
    requires k <= |kinds| && Fair(kinds, k, inFlag, mask, v) && Fair(kinds, k, inFlag, mask, w) && k <= d < |kinds|
    ensures d in v <==> d in w
    decreases d
  {
    forall e | k <= e < d ensures e in v <==> e in w {
      FairIsUnique(kinds, k, inFlag, mask, v, w, e);
    }
    LeftOfSame(kinds, k, v, w, mask, d);
    assert FairAt(kinds, k, inFlag, mask, v, d) && FairAt(kinds, k, inFlag, mask, w, d);
  }

  // The exact condition of one walk: it reaches precisely w if and only if every device belongs to w exactly
  // when it would be hit by what the members of w declared before it have left of the mask.
  lemma WalkReachesExactly(kinds: seq<Mask>, inFlag: Mask, mask: Mask, w: set<nat>)
    requires forall d | d in w :: d < |kinds|
    ensures Reached(kinds, 0, inFlag, mask) == w <==> Fair(kinds, 0, inFlag, mask, w)
  {
    var r := Reached(kinds, 0, inFlag, mask);
    forall d: nat | d < |kinds| ensures FairAt(kinds, 0, inFlag, mask, r, d) {
      ReachedIsFair(kinds, 0, inFlag, mask, d);
    }
    if Fair(kinds, 0, inFlag, mask, w) {
      forall d: nat | d < |kinds| ensures d in r <==> d in w {
        FairIsUnique(kinds, 0, inFlag, mask, r, w, d);
      }
      assert r == w;
    }
  }

  // The devices of direction `input` that a mask names.
  ghost function Meant(kinds: seq<Mask>, mask: Mask, input: bool): set<nat> {
    set d: nat | d < |kinds| && Has(mask, kinds[d]) && In(kinds[d]) == input
  }

  ghost function WalkOf(kinds: seq<Mask>, devices: Mask): set<nat> {
    Reached(kinds, 0, devices * BIT_IN, devices - BIT_IN)
  }

  // Types that share no low bit cannot hide each other.
  ghost predicate Apart(kinds: seq<Mask>) {
    forall d: nat, e: nat | d < |kinds| && e < |kinds| && d != e :: ApartAt(kinds, d, e)
  }

  predicate ApartAt(kinds: seq<Mask>, d: nat, e: nat)
    requires d < |kinds| && e < |kinds|
  {
    !Has(kinds[d], kinds[e])
  }

  lemma {:induction false} LeftIsFlagless(kinds: seq<Mask>, mask: Mask, w: set<nat>, d: nat)
    requires Flagless(mask) && d <= |kinds|
    ensures Flagless(Left(kinds, 0, w, mask, d))
    decreases d
  {
    if d > 0 {
      LeftIsFlagless(kinds, mask, w, d - 1);
    }
  }

  lemma {:induction false} ApartLeft(kinds: seq<Mask>, inFlag: Mask, mask: Mask, w: set<nat>, d: nat, e: nat)
    requires Apart(kinds) && Flagless(mask) && d <= e < |kinds|
    ensures Hit(kinds[e], inFlag, Left(kinds, 0, w, mask, d)) == Hit(kinds[e], inFlag, mask)
    decreases d
  {
    if d > 0 {
      ApartLeft(kinds, inFlag, mask, w, d - 1, e);
      LeftIsFlagless(kinds, mask, w, d - 1);
      assert ApartAt(kinds, d - 1, e);
      HitAfterTurn(kinds[e], kinds[d - 1], inFlag, Left(kinds, 0, w, mask, d - 1), d - 1 in w);
    }
  }

  // With such types, a walk whose mask names only devices of one direction reaches exactly those.
  lemma ApartWalkIsExact(kinds: seq<Mask>, devices: Mask, input: bool)
    requires Apart(kinds)
    requires forall d: nat | d < |kinds| && Has(devices, kinds[d]) && (In(devices) ==> In(kinds[d])) ::
               In(kinds[d]) == input
    requires In(devices) ==> input
    ensures WalkOf(kinds, devices) == Meant(kinds, devices, input)
  {
    var w, flag, low := Meant(kinds, devices, input), devices * BIT_IN, devices - BIT_IN;
    forall d: nat | d < |kinds| ensures FairAt(kinds, 0, flag, low, w, d) {
      ApartLeft(kinds, flag, low, w, d, d);
      HitIsHas(devices, kinds[d]);
    }
    WalkReachesExactly(kinds, flag, low, w);
  }
}

module AudioRoute {
  import opened RouteBits
  import opened DeviceWalk

  const PATH_OFF: int := 0
  const PATH_ON: int := 1

  // `paths` are the ids of the declared <path> elements; type 0 is the global device.
  datatype Device = Device(kind: Mask, useCount: int, paths: seq<int>)

  datatype Stream = Stream(kind: int, input: bool, refCount: int, maxRefCount: int,
                           enablePath: int, disablePath: int, current: Mask)

  // One apply_path_l: the mixer controls of this path of this device are written.
  datatype Applied = Applied(device: nat, path: int)

  // `outAll` and `inAll` are AUDIO_DEVICE_OUT_ALL and AUDIO_DEVICE_IN_ALL of the platform headers.
  datatype Manager = Manager(devices: seq<Device>, streams: seq<Stream>, log: seq<Applied>, outAll: Mask, inAll: Mask)

  // --- the operations ---

  // apply_device_path_l: "on" and "off" are reference counted.
  function ApplyDevicePath(m: Manager, d: nat, path: int): Manager
    requires d < |m.devices|
  {
    var dev := m.devices[d];
    var count :=
      if path == PATH_OFF then dev.useCount - 1 else if path == PATH_ON then dev.useCount + 1 else dev.useCount;
    var silent := (path == PATH_OFF && count > 0) || (path == PATH_ON && count > 1);
    m.(devices := m.devices[d := dev.(useCount := count)],
       log := if silent then m.log else m.log + [Applied(d, path)])
  }

  // apply_paths_by_id_l
  function ApplyPaths(m: Manager, d: nat, first: int, second: int): (m': Manager)
    requires d < |m.devices|
    ensures |m'.devices| == |m.devices|
  {
    var m1 := if first in m.devices[d].paths then ApplyDevicePath(m, d, first) else m;
    if second in m.devices[d].paths && second != first then ApplyDevicePath(m1, d, second) else m1
  }

  // apply_paths_to_devices_l from device k on, `mask` being what is left of the devices asked for
  function Walk(m: Manager, k: nat, inFlag: Mask, mask: Mask, first: int, second: int): Manager
    requires k <= |m.devices|
    decreases |m.devices| - k
  {
    if k == |m.devices| || mask == {} then m
    else if Hit(m.devices[k].kind, inFlag, mask) then
      Walk(ApplyPaths(m, k, first, second), k + 1, inFlag, mask - m.devices[k].kind, first, second)
    else Walk(m, k + 1, inFlag, mask, first, second)
  }

  function ApplyToDevices(m: Manager, devices: Mask, first: int, second: int): Manager {
    Walk(m, 0, devices * BIT_IN, devices - BIT_IN, first, second)
  }

  // apply_paths_to_global_l
  function ApplyToGlobal(m: Manager, k: nat, first: int, second: int): Manager
    requires k <= |m.devices|
    decreases |m.devices| - k
  {
    if k == |m.devices| then m
    else if m.devices[k].kind == {} then ApplyPaths(m, k, first, second)
    else ApplyToGlobal(m, k + 1, first, second)
  }

  predicate CanOpen(m: Manager, s: nat) {
    s < |m.streams| && m.streams[s].refCount < m.streams[s].maxRefCount
  }

  function SetStream(m: Manager, s: nat, stream: Stream): Manager
    requires s < |m.streams|
  {
    m.(streams := m.streams[s := stream])
  }

  // open_stream_l on a stream below its maximum
  function Open(m: Manager, s: nat): Manager
    requires CanOpen(m, s)
  {
    var st := m.streams[s];
    var m1 := SetStream(m, s, st.(refCount := st.refCount + 1));
    if st.refCount + 1 == 1 then ApplyToGlobal(m1, 0, PATH_ON, st.enablePath) else m1
  }

  predicate WrongDirection(st: Stream, devices: Mask) {
    devices != {} && In(devices) != st.input
  }

  function Masked(m: Manager, devices: Mask): Mask {
    MaskedRoute(devices, m.inAll, m.outAll)
  }

  // Only devices that have changed state on this stream get paths applied.
  function Rerouted(m: Manager, st: Stream, disabling: Mask, enabling: Mask): Manager {
    ApplyToDevices(ApplyToDevices(m, disabling, st.disablePath, PATH_OFF), enabling, PATH_ON, st.enablePath)
  }

  // apply_route
  function Route(m: Manager, s: nat, devices: Mask): Manager
    requires s < |m.streams|
  {
    var st := m.streams[s];
    if WrongDirection(st, devices) then m
    else
      var disabling, enabling := Leaving(st.current, devices), Entering(st.current, devices);
      var m1 := Rerouted(m, st, disabling, enabling);
      ReroutedKeepsStreams(m, st, disabling, enabling);
      SetStream(m1, s, st.(current := Masked(m, devices)))
  }

  // What the last release applies: everything the stream was using is switched off.
  function ShutDown(m: Manager, st: Stream): Manager {
    ApplyToGlobal(ApplyToDevices(m, st.current, PATH_OFF, st.disablePath), 0, st.disablePath, PATH_OFF)
  }

  // release_stream
  function Release(m: Manager, s: nat): Manager
    requires s < |m.streams|
  {
    var st := m.streams[s];
    var m1 := SetStream(m, s, st.(refCount := st.refCount - 1));
    if st.refCount - 1 != 0 then m1
    else
      ShutDownKeepsStreams(m1, st);
      SetStream(ShutDown(m1, st), s, st.(refCount := 0, current := {}))
  }

  // What walking the devices never touches.
  ghost predicate SameFrame(m: Manager, m': Manager) {
    && m'.streams == m.streams && m'.outAll == m.outAll && m'.inAll == m.inAll
    && |m'.devices| == |m.devices|
    && forall i | 0 <= i < |m.devices| :: m'.devices[i] == m.devices[i].(useCount := m'.devices[i].useCount)
  }

  lemma SameFrameTransitive(a: Manager, b: Manager, c: Manager)
    requires SameFrame(a, b) && SameFrame(b, c)
    ensures SameFrame(a, c)
  {
  }

  lemma ApplyPathsFrame(m: Manager, d: nat, first: int, second: int)
    requires d < |m.devices|
    ensures SameFrame(m, ApplyPaths(m, d, first, second))
    ensures forall i | 0 <= i < |m.devices| && i != d :: ApplyPaths(m, d, first, second).devices[i] == m.devices[i]
  {
  }

  lemma {:induction false} WalkKeepsStreams(m: Manager, k: nat, inFlag: Mask, mask: Mask, first: int, second: int)
    requires k <= |m.devices|
    ensures SameFrame(m, Walk(m, k, inFlag, mask, first, second))
    decreases |m.devices| - k
  {
    if k == |m.devices| || mask == {} {
    } else if Hit(m.devices[k].kind, inFlag, mask) {
      var m1 := ApplyPaths(m, k, first, second);
      ApplyPathsFrame(m, k, first, second);
      WalkKeepsStreams(m1, k + 1, inFlag, mask - m.devices[k].kind, first, second);
      SameFrameTransitive(m, m1, Walk(m1, k + 1, inFlag, mask - m.devices[k].kind, first, second));
    } else {
      WalkKeepsStreams(m, k + 1, inFlag, mask, first, second);
    }
  }

  lemma ApplyToDevicesFrame(m: Manager, devices: Mask, first: int, second: int)
    ensures SameFrame(m, ApplyToDevices(m, devices, first, second))
  {
    WalkKeepsStreams(m, 0, devices * BIT_IN, devices - BIT_IN, first, second);
  }

  lemma ReroutedKeepsStreams(m: Manager, st: Stream, disabling: Mask, enabling: Mask)
    ensures SameFrame(m, Rerouted(m, st, disabling, enabling))
  {
    var m1 := ApplyToDevices(m, disabling, st.disablePath, PATH_OFF);
    ApplyToDevicesFrame(m, disabling, st.disablePath, PATH_OFF);
    ApplyToDevicesFrame(m1, enabling, PATH_ON, st.enablePath);
    SameFrameTransitive(m, m1, Rerouted(m, st, disabling, enabling));
  }

  lemma {:induction false} GlobalKeepsStreams(m: Manager, k: nat, first: int, second: int)
    requires k <= |m.devices|
    ensures SameFrame(m, ApplyToGlobal(m, k, first, second))
    decreases |m.devices| - k
  {
    if k < |m.devices| && m.devices[k].kind != {} {
      GlobalKeepsStreams(m, k + 1, first, second);
    }
  }

  lemma ShutDownKeepsStreams(m: Manager, st: Stream)
    ensures SameFrame(m, ShutDown(m, st))
  {
    var m1 := ApplyToDevices(m, st.current, PATH_OFF, st.disablePath);
    ApplyToDevicesFrame(m, st.current, PATH_OFF, st.disablePath);
    GlobalKeepsStreams(m1, 0, st.disablePath, PATH_OFF);
    SameFrameTransitive(m, m1, ShutDown(m, st));
  }

  // --- what one operation does to one device, for every configuration ---

  // Paths other than "on" and "off" are not counted.
  predicate Custom(path: int) {
    path != PATH_ON && path != PATH_OFF
  }

  // The counted paths that a device declares among the two asked for, in the order they are applied.
  function Switches(dev: Device, first: int, second: int): seq<int> {
    (if first in dev.paths && !Custom(first) then [first] else [])
    + (if second in dev.paths && second != first && !Custom(second) then [second] else [])
  }

  function Change(path: int): int {
    if path == PATH_ON then 1 else -1
  }

  function Net(sw: seq<int>): int {
    if sw == [] then 0 else Change(sw[0]) + Net(sw[1..])
  }

  // The "on" and "off" paths applied to device d, in order.
  function OnOff(log: seq<Applied>, d: nat): seq<int> {
    if log == [] then []
    else
      var last := log[|log| - 1];
      OnOff(log[..|log| - 1], d) + (if last.device == d && !Custom(last.path) then [last.path] else [])
  }

  lemma OnOffSnoc(log: seq<Applied>, a: Applied, d: nat)
    ensures OnOff(log + [a], d) == OnOff(log, d) + (if a.device == d && !Custom(a.path) then [a.path] else [])
  {
    assert (log + [a])[..|log|] == log;
  }

  // A device as its switches see it: its count, and the "on" and "off" paths applied to it.
  datatype Switchboard = Switchboard(count: int, applied: seq<int>)

  function Board(m: Manager, d: nat): Switchboard
    requires d < |m.devices|
  {
    Switchboard(m.devices[d].useCount, OnOff(m.log, d))
  }

  // A switch counts, and is applied unless the count says that the device stays on.
  function Turn(b: Switchboard, path: int): Switchboard {
    var count := b.count + Change(path);
    var silent := (path == PATH_OFF && count > 0) || (path != PATH_OFF && count > 1);
    Switchboard(count, if silent then b.applied else b.applied + [path])
  }

  function Turns(b: Switchboard, sw: seq<int>): Switchboard
    decreases |sw|
  {
    if sw == [] then b else Turns(Turn(b, sw[0]), sw[1..])
  }

  lemma {:induction false} TurnsConcat(b: Switchboard, x: seq<int>, y: seq<int>)
    ensures Turns(b, x + y) == Turns(Turns(b, x), y)
    decreases |x|
  {
    ConcatParts(x, y);
    if x != [] {
      TurnsConcat(Turn(b, x[0]), x[1..], y);
    }
  }

  lemma ConcatParts(x: seq<int>, y: seq<int>)
    ensures x == [] ==> x + y == y
    ensures y == [] ==> x + y == x
    ensures x != [] ==> (x + y)[0] == x[0] && (x + y)[1..] == x[1..] + y
  {
  }

  lemma {:induction false} TurnsCount(b: Switchboard, sw: seq<int>)
    ensures Turns(b, sw).count == b.count + Net(sw)
    decreases |sw|
  {
    if sw != [] {
      TurnsCount(Turn(b, sw[0]), sw[1..]);
    }
  }

  // From m to m' the counted paths `sw`, and no others, have been asked of device d.
  predicate Does(m: Manager, m': Manager, d: nat, sw: seq<int>) {
    d < |m.devices| && d < |m'.devices| && Board(m', d) == Turns(Board(m, d), sw)
  }

  lemma TurnsOne(b: Switchboard, path: int)
    ensures Turns(b, [path]) == Turn(b, path)
  {
    assert Turns(Turn(b, path), [path][1..]) == Turn(b, path);
  }

  lemma DoesNothing(m: Manager, m': Manager, d: nat)
    requires d < |m.devices| && d < |m'.devices| && Board(m', d) == Board(m, d)
    ensures Does(m, m', d, [])
  {
  }

  lemma DoesBoth(m: Manager, m1: Manager, m2: Manager, d: nat, a: seq<int>, b: seq<int>)
    requires Does(m, m1, d, a) && Does(m1, m2, d, b)
    ensures Does(m, m2, d, a + b)
  {
    TurnsConcat(Board(m, d), a, b);
  }

  lemma ApplyOne(m: Manager, d: nat, path: int, j: nat)
    requires d < |m.devices| && j < |m.devices|
    ensures Does(m, ApplyDevicePath(m, d, path), j, if j == d && !Custom(path) then [path] else [])
  {
    var m' := ApplyDevicePath(m, d, path);
    OnOffSnoc(m.log, Applied(d, path), j);
    if j == d && !Custom(path) {
      TurnsOne(Board(m, d), path);
      assert m'.devices[d].useCount == m.devices[d].useCount + Change(path);
    } else {
      assert m'.devices[j].useCount == m.devices[j].useCount;
      DoesNothing(m, m', j);
    }
  }

  lemma ApplyPathsDoes(m: Manager, d: nat, first: int, second: int, j: nat)
    requires d < |m.devices| && j < |m.devices|
    ensures Does(m, ApplyPaths(m, d, first, second), j, if j == d then Switches(m.devices[d], first, second) else [])
  {
    var m1 := if first in m.devices[d].paths then ApplyDevicePath(m, d, first) else m;
    var m2 := ApplyPaths(m, d, first, second);
    var a := if j == d && first in m.devices[d].paths && !Custom(first) then [first] else [];
    var b := if j == d && second in m.devices[d].paths && second != first && !Custom(second) then [second] else [];
    assert Does(m, m1, j, a) by {
      DoesNothing(m, m, j);
      ApplyOne(m, d, first, j);
    }
    assert Does(m1, m2, j, b) by {
      DoesNothing(m1, m1, j);
      ApplyOne(m1, d, second, j);
    }
    DoesBoth(m, m1, m2, j, a, b);
    assert j != d ==> a + b == [];
  }

  // --- the walk ---

  function Kinds(m: Manager): seq<Mask> {
    seq(|m.devices|, i requires 0 <= i < |m.devices| => m.devices[i].kind)
  }

  lemma SameFrameKinds(m: Manager, m': Manager)
    requires SameFrame(m, m')
    ensures Kinds(m') == Kinds(m)
  {
  }

  // The walk without its bit masks: the paths are applied to the devices of `hit`, in order.
  ghost function Each(m: Manager, k: nat, hit: set<nat>, first: int, second: int): Manager
    requires k <= |m.devices|
    decreases |m.devices| - k
  {
    if k == |m.devices| then m
    else Each(if k in hit then ApplyPaths(m, k, first, second) else m, k + 1, hit, first, second)
  }

  lemma {:induction false} EachOfNothing(m: Manager, k: nat, hit: set<nat>, first: int, second: int)
    requires k <= |m.devices| && forall j | k <= j < |m.devices| :: j !in hit
    ensures Each(m, k, hit, first, second) == m
    decreases |m.devices| - k
  {
    if k < |m.devices| {
      EachOfNothing(m, k + 1, hit, first, second);
    }
  }

  lemma {:induction false} EachOfSame(m: Manager, k: nat, v: set<nat>, w: set<nat>, first: int, second: int)
    requires k <= |m.devices| && forall j | k <= j < |m.devices| :: j in v <==> j in w
    ensures Each(m, k, v, first, second) == Each(m, k, w, first, second)
    decreases |m.devices| - k
  {
    if k < |m.devices| {
      EachOfSame(if k in v then ApplyPaths(m, k, first, second) else m, k + 1, v, w, first, second);
    }
  }

  // For every configuration the walk applies its paths to the devices it reaches, once each, in order.
  lemma {:induction false} WalkIsEach(m: Manager, k: nat, inFlag: Mask, mask: Mask, first: int, second: int)
    requires k <= |m.devices|
    ensures Walk(m, k, inFlag, mask, first, second) == Each(m, k, Reached(Kinds(m), k, inFlag, mask), first, second)
    decreases |m.devices| - k
  {
    var r := Reached(Kinds(m), k, inFlag, mask);
    if k == |m.devices| || mask == {} {
      EachOfNothing(m, k, r, first, second);
    } else {
      var m1, rest := Next(m, k, inFlag, mask, first, second), Rest(m.devices[k].kind, inFlag, mask);
      WalkStep(m, k, inFlag, mask, first, second);
      KindsAfter(m, k, first, second);
      ReachedStep(Kinds(m), k, inFlag, mask);
      WalkIsEach(m1, k + 1, inFlag, rest, first, second);
      EachOfSame(m1, k + 1, r, Reached(Kinds(m1), k + 1, inFlag, rest), first, second);
    }
  }

  function Next(m: Manager, k: nat, inFlag: Mask, mask: Mask, first: int, second: int): Manager
    requires k < |m.devices|
  {
    if Hit(m.devices[k].kind, inFlag, mask) then ApplyPaths(m, k, first, second) else m
  }

  lemma WalkStep(m: Manager, k: nat, inFlag: Mask, mask: Mask, first: int, second: int)
    requires k < |m.devices| && mask != {}
    ensures |Next(m, k, inFlag, mask, first, second).devices| == |m.devices|
    ensures Walk(m, k, inFlag, mask, first, second)
         == Walk(Next(m, k, inFlag, mask, first, second), k + 1, inFlag, Rest(m.devices[k].kind, inFlag, mask),
                 first, second)
  {
  }

  lemma KindsAfter(m: Manager, k: nat, first: int, second: int)
    requires k < |m.devices|
    ensures Kinds(ApplyPaths(m, k, first, second)) == Kinds(m)
  {
    ApplyPathsFrame(m, k, first, second);
    SameFrameKinds(m, ApplyPaths(m, k, first, second));
  }

  lemma {:induction false} EachDoes(m: Manager, k: nat, hit: set<nat>, first: int, second: int, j: nat)
    requires k <= |m.devices| && j < |m.devices|
    ensures Does(m, Each(m, k, hit, first, second), j,
                 if k <= j && j in hit then Switches(m.devices[j], first, second) else [])
    decreases |m.devices| - k
  {
    if k == |m.devices| {
      DoesNothing(m, m, j);
    } else if k in hit {
      var m1 := ApplyPaths(m, k, first, second);
      var a, b := if j == k then Switches(m.devices[k], first, second) else [],
                  if k + 1 <= j && j in hit then Switches(m1.devices[j], first, second) else [];
      ApplyPathsFrame(m, k, first, second);
      ApplyPathsDoes(m, k, first, second, j);
      EachDoes(m1, k + 1, hit, first, second, j);
      DoesBoth(m, m1, Each(m1, k + 1, hit, first, second), j, a, b);
      ConcatParts(a, b);
    } else {
      EachDoes(m, k + 1, hit, first, second, j);
    }
  }

  // The switches that a walk over `devices` asks of device d.
  ghost function WalkSwitches(m: Manager, devices: Mask, first: int, second: int, d: nat): seq<int>
    requires d < |m.devices|
  {
    if d in WalkOf(Kinds(m), devices) then Switches(m.devices[d], first, second) else []
  }

  lemma DevicesDoes(m: Manager, devices: Mask, first: int, second: int, d: nat)
    requires d < |m.devices|
    ensures Does(m, ApplyToDevices(m, devices, first, second), d, WalkSwitches(m, devices, first, second, d))
  {
    WalkIsEach(m, 0, devices * BIT_IN, devices - BIT_IN, first, second);
    EachDoes(m, 0, WalkOf(Kinds(m), devices), first, second, d);
  }

  // The device that apply_paths_to_global_l finds.
  predicate FirstGlobal(m: Manager, d: nat) {
    d < |m.devices| && m.devices[d].kind == {} && forall e | 0 <= e < d :: m.devices[e].kind != {}
  }

  function GlobalSwitches(m: Manager, first: int, second: int, d: nat): seq<int>
    requires d < |m.devices|
  {
    if FirstGlobal(m, d) then Switches(m.devices[d], first, second) else []
  }

  lemma {:induction false} GlobalDoes(m: Manager, k: nat, first: int, second: int, d: nat)
    requires k <= |m.devices| && d < |m.devices| && forall e | 0 <= e < k :: m.devices[e].kind != {}
    ensures Does(m, ApplyToGlobal(m, k, first, second), d, GlobalSwitches(m, first, second, d))
    decreases |m.devices| - k
  {
    if k == |m.devices| {
      DoesNothing(m, m, d);
    } else if m.devices[k].kind == {} {
      ApplyPathsDoes(m, k, first, second, d);
    } else {
      GlobalDoes(m, k + 1, first, second, d);
    }
  }

  // --- operations ---

  datatype Op = OpenStream(s: nat) | SetRoute(s: nat, route: Mask) | ReleaseStream(s: nat)

  // What callers owe: only a stream they hold is routed or released.
  predicate Legal(m: Manager, op: Op) {
    op.s < |m.streams| && (!op.OpenStream? ==> m.streams[op.s].refCount > 0)
  }

  function Apply(m: Manager, op: Op): Manager
    requires op.s < |m.streams|
  {
    match op
    case OpenStream(s) => if CanOpen(m, s) then Open(m, s) else m
    case SetRoute(s, route) => Route(m, s, route)
    case ReleaseStream(s) => Release(m, s)
  }

  ghost function RouteSwitches(m: Manager, st: Stream, route: Mask, d: nat): seq<int>
    requires d < |m.devices|
  {
    WalkSwitches(m, Leaving(st.current, route), st.disablePath, PATH_OFF, d)
    + WalkSwitches(m, Entering(st.current, route), PATH_ON, st.enablePath, d)
  }

  ghost function ReleaseSwitches(m: Manager, st: Stream, d: nat): seq<int>
    requires d < |m.devices|
  {
    WalkSwitches(m, st.current, PATH_OFF, st.disablePath, d) + GlobalSwitches(m, st.disablePath, PATH_OFF, d)
  }

  // The counted paths an operation asks of device d: computed from declared types, declared paths and masks.
  ghost function OpSwitches(m: Manager, op: Op, d: nat): seq<int>
    requires op.s < |m.streams| && d < |m.devices|
  {
    var st := m.streams[op.s];
    match op
    case OpenStream(s) =>
      if CanOpen(m, s) && st.refCount == 0 then GlobalSwitches(m, PATH_ON, st.enablePath, d) else []
    case SetRoute(_, route) => if WrongDirection(st, route) then [] else RouteSwitches(m, st, route, d)
    case ReleaseStream(_) => if st.refCount == 1 then ReleaseSwitches(m, st, d) else []
  }

  lemma OpenDoes(m: Manager, s: nat, d: nat)
    requires s < |m.streams| && d < |m.devices|
    ensures Does(m, Apply(m, OpenStream(s)), d, OpSwitches(m, OpenStream(s), d))
  {
    var st := m.streams[s];
    var m1 := SetStream(m, s, st.(refCount := st.refCount + 1));
    DoesNothing(m, m, d);
    DoesNothing(m, m1, d);
    GlobalDoes(m1, 0, PATH_ON, st.enablePath, d);
  }

  lemma ReroutedDoes(m: Manager, st: Stream, route: Mask, d: nat)
    requires d < |m.devices|
    ensures Does(m, Rerouted(m, st, Leaving(st.current, route), Entering(st.current, route)), d,
                 RouteSwitches(m, st, route, d))
  {
    var leaving, entering := Leaving(st.current, route), Entering(st.current, route);
    var m1 := ApplyToDevices(m, leaving, st.disablePath, PATH_OFF);
    ApplyToDevicesFrame(m, leaving, st.disablePath, PATH_OFF);
    SameFrameKinds(m, m1);
    DevicesDoes(m, leaving, st.disablePath, PATH_OFF, d);
    DevicesDoes(m1, entering, PATH_ON, st.enablePath, d);
    DoesBoth(m, m1, Rerouted(m, st, leaving, entering), d,
             WalkSwitches(m, leaving, st.disablePath, PATH_OFF, d),
             WalkSwitches(m1, entering, PATH_ON, st.enablePath, d));
  }

  lemma ShutDownDoes(m: Manager, st: Stream, d: nat)
    requires d < |m.devices|
    ensures Does(m, ShutDown(m, st), d, ReleaseSwitches(m, st, d))
  {
    var m1 := ApplyToDevices(m, st.current, PATH_OFF, st.disablePath);
    ApplyToDevicesFrame(m, st.current, PATH_OFF, st.disablePath);
    DevicesDoes(m, st.current, PATH_OFF, st.disablePath, d);
    GlobalDoes(m1, 0, st.disablePath, PATH_OFF, d);
    DoesBoth(m, m1, ShutDown(m, st), d,
             WalkSwitches(m, st.current, PATH_OFF, st.disablePath, d), GlobalSwitches(m1, st.disablePath, PATH_OFF, d));
  }

  // The exact effect of every operation on every device, for every configuration and state.
  lemma OpDoes(m: Manager, op: Op, d: nat)
    requires op.s < |m.streams| && d < |m.devices|
    ensures Does(m, Apply(m, op), d, OpSwitches(m, op, d))
  {
    match op
    case OpenStream(s) => OpenDoes(m, s, d);
    case SetRoute(s, route) => RouteDoes(m, s, route, d);
    case ReleaseStream(s) => ReleaseDoes(m, s, d);
  }

  lemma RouteDoes(m: Manager, s: nat, route: Mask, d: nat)
    requires s < |m.streams| && d < |m.devices|
    ensures Does(m, Route(m, s, route), d, OpSwitches(m, SetRoute(s, route), d))
  {
    DoesNothing(m, m, d);
    ReroutedDoes(m, m.streams[s], route, d);
  }

  lemma ReleaseDoes(m: Manager, s: nat, d: nat)
    requires s < |m.streams| && d < |m.devices|
    ensures Does(m, Release(m, s), d, OpSwitches(m, ReleaseStream(s), d))
  {
    var st := m.streams[s];
    var m1 := SetStream(m, s, st.(refCount := st.refCount - 1));
    assert Board(m1, d) == Board(m, d) && Kinds(m1) == Kinds(m);
    DoesNothing(m, m1, d);
    ShutDownDoes(m1, st, d);
  }

  // --- counts ---

  // How many streams have a route to devices of this type, and how many are open.
  function Users(streams: seq<Stream>, kind: Mask): nat {
    if streams == [] then 0
    else Users(streams[..|streams| - 1], kind) + if Names(streams[|streams| - 1].current, kind) then 1 else 0
  }

  function OpenStreams(streams: seq<Stream>): nat {
    if streams == [] then 0
    else OpenStreams(streams[..|streams| - 1]) + if streams[|streams| - 1].refCount > 0 then 1 else 0
  }

  // Who should be using device d: for the global device every open stream, for another every stream routed to it.
  function Expected(m: Manager, d: nat): nat
    requires d < |m.devices|
  {
    if m.devices[d].kind == {} then OpenStreams(m.streams) else Users(m.streams, m.devices[d].kind)
  }

  function One(b: bool): int {
    if b then 1 else 0
  }

  lemma {:induction false} UsersUpdate(streams: seq<Stream>, s: nat, st: Stream, kind: Mask)
    requires s < |streams|
    ensures Users(streams[s := st], kind)
         == Users(streams, kind) + One(Names(st.current, kind)) - One(Names(streams[s].current, kind))
    ensures Names(streams[s].current, kind) ==> Users(streams, kind) >= 1
  {
    var n := |streams|;
    if s == n - 1 {
      assert streams[s := st][..n - 1] == streams[..n - 1];
    } else {
      assert streams[s := st][..n - 1] == streams[..n - 1][s := st];
      UsersUpdate(streams[..n - 1], s, st, kind);
    }
  }

  lemma {:induction false} OpenStreamsUpdate(streams: seq<Stream>, s: nat, st: Stream)
    requires s < |streams|
    ensures OpenStreams(streams[s := st]) == OpenStreams(streams) + One(st.refCount > 0) - One(streams[s].refCount > 0)
    ensures streams[s].refCount > 0 ==> OpenStreams(streams) >= 1
  {
    var n := |streams|;
    if s == n - 1 {
      assert streams[s := st][..n - 1] == streams[..n - 1];
    } else {
      assert streams[s := st][..n - 1] == streams[..n - 1][s := st];
      OpenStreamsUpdate(streams[..n - 1], s, st);
    }
  }

  // A stream nobody holds has no route, and a route has the direction of its stream.
  predicate StreamOk(st: Stream) {
    && st.refCount >= 0
    && (st.refCount == 0 ==> st.current == {})
    && (st.current != {} ==> In(st.current) == st.input)
  }

  predicate StreamsOk(m: Manager) {
    forall s | 0 <= s < |m.streams| :: StreamOk(m.streams[s])
  }

  // What an operation makes of its stream.
  function StreamAfter(m: Manager, op: Op): Stream
    requires op.s < |m.streams|
  {
    var st := m.streams[op.s];
    match op
    case OpenStream(s) => if CanOpen(m, s) then st.(refCount := st.refCount + 1) else st
    case SetRoute(_, route) => if WrongDirection(st, route) then st else st.(current := Masked(m, route))
    case ReleaseStream(_) =>
      if st.refCount == 1 then st.(refCount := 0, current := {}) else st.(refCount := st.refCount - 1)
  }

  // Types, declared paths and the other streams never change.
  ghost predicate SameButStream(m: Manager, m': Manager, s: nat, st: Stream) {
    && s < |m.streams| && m'.streams == m.streams[s := st]
    && m'.outAll == m.outAll && m'.inAll == m.inAll && |m'.devices| == |m.devices|
    && forall i | 0 <= i < |m.devices| :: m'.devices[i] == m.devices[i].(useCount := m'.devices[i].useCount)
  }

  lemma ApplyFrame(m: Manager, op: Op)
    requires op.s < |m.streams|
    ensures SameButStream(m, Apply(m, op), op.s, StreamAfter(m, op))
  {
    var st := m.streams[op.s];
    match op
    case OpenStream(s) =>
      GlobalKeepsStreams(SetStream(m, s, st.(refCount := st.refCount + 1)), 0, PATH_ON, st.enablePath);
    case SetRoute(s, route) =>
      ReroutedKeepsStreams(m, st, Leaving(st.current, route), Entering(st.current, route));
    case ReleaseStream(s) =>
      ShutDownKeepsStreams(SetStream(m, s, st.(refCount := st.refCount - 1)), st);
  }

  lemma ApplyKeepsStreamsOk(m: Manager, op: Op)
    requires StreamsOk(m) && Legal(m, op)
    ensures StreamsOk(Apply(m, op))
  {
    ApplyFrame(m, op);
    assert StreamOk(m.streams[op.s]);
    if op.SetRoute? {
      MaskedRouteNames(op.route, m.inAll, m.outAll, {});
    }
  }

  // By how much the users of device d change: what a caller can tell from the stream and the new route.
  function UsersMove(m: Manager, op: Op, d: nat): int
    requires op.s < |m.streams| && d < |m.devices|
  {
    var st, kind := m.streams[op.s], m.devices[d].kind;
    match op
    case OpenStream(s) => One(CanOpen(m, s) && st.refCount == 0 && kind == {})
    case SetRoute(_, route) =>
      if WrongDirection(st, route) then 0 else One(Names(Masked(m, route), kind)) - One(Names(st.current, kind))
    case ReleaseStream(_) => if st.refCount == 1 then 0 - One(Names(st.current, kind)) - One(kind == {}) else 0
  }

  lemma ExpectedMoves(m: Manager, op: Op, d: nat)
    requires StreamsOk(m) && Legal(m, op) && d < |m.devices|
    ensures d < |Apply(m, op).devices| && Expected(Apply(m, op), d) == Expected(m, d) + UsersMove(m, op, d)
  {
    var st, kind := m.streams[op.s], m.devices[d].kind;
    ApplyFrame(m, op);
    assert StreamOk(st);
    UsersUpdate(m.streams, op.s, StreamAfter(m, op), kind);
    OpenStreamsUpdate(m.streams, op.s, StreamAfter(m, op));
    NothingHasGlobal(st.current, {});
    if op.SetRoute? {
      NothingHasGlobal(Masked(m, op.route), {});
    }
  }

  predicate CountRight(m: Manager, d: nat) {
    d < |m.devices| && m.devices[d].useCount == Expected(m, d)
  }

  // --- what an operation has to pay, in terms of declared types, declared paths and masks ---

  // What two paths asked of a device do to its count: a declared "on" adds one, a declared "off" takes one.
  function Worth(dev: Device, first: int, second: int): int {
    One(PATH_ON in dev.paths && (first == PATH_ON || second == PATH_ON))
    - One(PATH_OFF in dev.paths && (first == PATH_OFF || second == PATH_OFF))
  }

  // The walk for what a new route takes away, or adds, comes to device d.
  ghost predicate Leaves(m: Manager, st: Stream, route: Mask, d: nat) {
    d in WalkOf(Kinds(m), Leaving(st.current, route))
  }

  ghost predicate Enters(m: Manager, st: Stream, route: Mask, d: nat) {
    d in WalkOf(Kinds(m), Entering(st.current, route))
  }

  ghost predicate RoutePays(m: Manager, st: Stream, route: Mask, d: nat)
    requires d < |m.devices|
  {
    var dev := m.devices[d];
    (if Leaves(m, st, route, d) then Worth(dev, st.disablePath, PATH_OFF) else 0)
    + (if Enters(m, st, route, d) then Worth(dev, PATH_ON, st.enablePath) else 0)
    == One(Names(Masked(m, route), dev.kind)) - One(Names(st.current, dev.kind))
  }

  predicate OpenPays(m: Manager, st: Stream, d: nat)
    requires d < |m.devices|
  {
    m.devices[d].kind == {} ==> FirstGlobal(m, d) && Worth(m.devices[d], PATH_ON, st.enablePath) == 1
  }

  ghost predicate ReleasePays(m: Manager, st: Stream, d: nat)
    requires d < |m.devices|
  {
    var dev := m.devices[d];
    var worth := Worth(dev, PATH_OFF, st.disablePath);
    if dev.kind == {} then FirstGlobal(m, d) && worth == -1
    else if Names(st.current, dev.kind) then d in WalkOf(Kinds(m), st.current) && worth == -1
    else d in WalkOf(Kinds(m), st.current) ==> worth == 0
  }

  // For every configuration: the operation asks of device d what the change in its users calls for.
  ghost predicate Pays(m: Manager, op: Op, d: nat)
    requires op.s < |m.streams| && d < |m.devices|
  {
    var st := m.streams[op.s];
    match op
    case OpenStream(s) => CanOpen(m, s) && st.refCount == 0 ==> OpenPays(m, st, d)
    case SetRoute(_, route) => !WrongDirection(st, route) ==> RoutePays(m, st, route, d)
    case ReleaseStream(_) => st.refCount == 1 ==> ReleasePays(m, st, d)
  }

  lemma {:induction false} NetConcat(a: seq<int>, b: seq<int>)
    ensures Net(a + b) == Net(a) + Net(b)
    decreases |a|
  {
    if a == [] {
      assert a + b == b;
    } else {
      assert (a + b)[1..] == a[1..] + b;
      NetConcat(a[1..], b);
    }
  }

  lemma NetOfOne(path: int)
    ensures Net([path]) == Change(path) && Net([]) == 0
  {
    assert [path][1..] == [];
  }

  lemma NetOfSwitches(dev: Device, first: int, second: int)
    ensures Net(Switches(dev, first, second)) == Worth(dev, first, second)
  {
    NetOfOne(first);
    NetOfOne(second);
    NetConcat(if first in dev.paths && !Custom(first) then [first] else [],
              if second in dev.paths && second != first && !Custom(second) then [second] else []);
  }

  lemma RouteNet(m: Manager, st: Stream, route: Mask, d: nat)
    requires d < |m.devices|
    ensures Net(RouteSwitches(m, st, route, d)) ==
              (if Leaves(m, st, route, d) then Worth(m.devices[d], st.disablePath, PATH_OFF) else 0)
              + (if Enters(m, st, route, d) then Worth(m.devices[d], PATH_ON, st.enablePath) else 0)
  {
    NetConcat(WalkSwitches(m, Leaving(st.current, route), st.disablePath, PATH_OFF, d),
              WalkSwitches(m, Entering(st.current, route), PATH_ON, st.enablePath, d));
    NetOfSwitches(m.devices[d], st.disablePath, PATH_OFF);
    NetOfSwitches(m.devices[d], PATH_ON, st.enablePath);
  }

  lemma ReleaseNet(m: Manager, st: Stream, d: nat)
    requires d < |m.devices|
    ensures Net(ReleaseSwitches(m, st, d)) ==
              if FirstGlobal(m, d) || d in WalkOf(Kinds(m), st.current)
              then Worth(m.devices[d], PATH_OFF, st.disablePath) else 0
  {
    NetConcat(WalkSwitches(m, st.current, PATH_OFF, st.disablePath, d),
              GlobalSwitches(m, st.disablePath, PATH_OFF, d));
    NetOfSwitches(m.devices[d], PATH_OFF, st.disablePath);
    NetOfSwitches(m.devices[d], st.disablePath, PATH_OFF);
    if FirstGlobal(m, d) {
      GlobalIsNotWalked(m, st.current, d);
    }
  }

  lemma GlobalIsNotWalked(m: Manager, devices: Mask, d: nat)
    requires d < |m.devices| && m.devices[d].kind == {}
    ensures d !in WalkOf(Kinds(m), devices)
  {
    var kinds, flag, low := Kinds(m), devices * BIT_IN, devices - BIT_IN;
    ReachedIsFair(kinds, 0, flag, low, d);
    NothingHasGlobal(Left(kinds, 0, Reached(kinds, 0, flag, low), low, d), flag);
  }

  lemma PaysExactly(m: Manager, op: Op, d: nat)
    requires op.s < |m.streams| && d < |m.devices|
    ensures Net(OpSwitches(m, op, d)) == UsersMove(m, op, d) <==> Pays(m, op, d)
  {
    var st := m.streams[op.s];
    NothingHasGlobal(st.current, {});
    match op
    case OpenStream(_) => NetOfSwitches(m.devices[d], PATH_ON, st.enablePath);
    case SetRoute(_, route) => RouteNet(m, st, route, d);
    case ReleaseStream(_) =>
      ReleaseNet(m, st, d);
      if m.devices[d].kind == {} {
        GlobalIsNotWalked(m, st.current, d);
      }
  }

  // One operation keeps a right count right if and only if it pays.
  lemma StepCountsExactly(m: Manager, op: Op, d: nat)
    requires StreamsOk(m) && Legal(m, op) && CountRight(m, d)
    ensures CountRight(Apply(m, op), d) <==> Pays(m, op, d)
  {
    OpDoes(m, op, d);
    TurnsCount(Board(m, d), OpSwitches(m, op, d));
    ExpectedMoves(m, op, d);
    PaysExactly(m, op, d);
  }

  // --- every run ---

  ghost predicate Runs(m: Manager, ops: seq<Op>, m': Manager)
    decreases |ops|
  {
    if ops == [] then m == m' else Legal(m, ops[0]) && Runs(Apply(m, ops[0]), ops[1..], m')
  }

  predicate Fresh(m: Manager) {
    && m.log == []
    && (forall d | 0 <= d < |m.devices| :: m.devices[d].useCount == 0)
    && (forall s | 0 <= s < |m.streams| :: m.streams[s].refCount == 0 && m.streams[s].current == {})
  }

  // The count of d is right in every state of the run.
  ghost predicate RightThroughout(m: Manager, ops: seq<Op>, d: nat)
    decreases |ops|
  {
    CountRight(m, d) && (ops != [] ==> ops[0].s < |m.streams| && RightThroughout(Apply(m, ops[0]), ops[1..], d))
  }

  // Every operation of the run pays for d where it is made.
  ghost predicate EachPays(m: Manager, ops: seq<Op>, d: nat)
    decreases |ops|
  {
    ops != [] ==>
      && ops[0].s < |m.streams| && d < |m.devices| && Pays(m, ops[0], d)
      && EachPays(Apply(m, ops[0]), ops[1..], d)
  }

  lemma {:induction false} NobodyUses(streams: seq<Stream>, kind: Mask)
    requires forall s | 0 <= s < |streams| :: streams[s].refCount == 0 && streams[s].current == {}
    ensures Users(streams, kind) == 0 && OpenStreams(streams) == 0
  {
    if streams != [] {
      NothingHasGlobal({}, {});
      NobodyUses(streams[..|streams| - 1], kind);
    }
  }

  lemma {:induction false} RunKeepsStreamsOk(m: Manager, ops: seq<Op>, m': Manager)
    requires StreamsOk(m) && Runs(m, ops, m')
    ensures StreamsOk(m') && |m'.streams| == |m.streams| && |m'.devices| == |m.devices|
    decreases |ops|
  {
    if ops != [] {
      ApplyKeepsStreamsOk(m, ops[0]);
      ApplyFrame(m, ops[0]);
      RunKeepsStreamsOk(Apply(m, ops[0]), ops[1..], m');
    }
  }

  lemma {:induction false} RunCountsExactly(m: Manager, ops: seq<Op>, m': Manager, d: nat)
    requires StreamsOk(m) && Runs(m, ops, m') && CountRight(m, d)
    ensures RightThroughout(m, ops, d) <==> EachPays(m, ops, d)
    ensures RightThroughout(m, ops, d) ==> CountRight(m', d)
    decreases |ops|
  {
    if ops != [] {
      var m1 := Apply(m, ops[0]);
      StepCountsExactly(m, ops[0], d);
      ApplyKeepsStreamsOk(m, ops[0]);
      if CountRight(m1, d) {
        RunCountsExactly(m1, ops[1..], m', d);
      }
    }
  }

  // For every configuration, device and run: the use count is the number of users in all states of the run if
  // and only if each operation pays, which is a matter of declared types, declared paths and masks. A stream nobody
  // holds has no route, whatever the configuration.
  lemma CountsAfterAnyRun(m0: Manager, ops: seq<Op>, m: Manager, d: nat)
    requires Fresh(m0) && Runs(m0, ops, m) && d < |m0.devices|
    ensures RightThroughout(m0, ops, d) <==> EachPays(m0, ops, d)
    ensures EachPays(m0, ops, d) ==> CountRight(m, d)
    ensures forall s | 0 <= s < |m.streams| :: m.streams[s].refCount == 0 ==> m.streams[s].current == {}
  {
    NobodyUses(m0.streams, m0.devices[d].kind);
    RunCountsExactly(m0, ops, m, d);
    RunKeepsStreamsOk(m0, ops, m);
    forall s | 0 <= s < |m.streams| ensures m.streams[s].refCount == 0 ==> m.streams[s].current == {} {
      assert StreamOk(m.streams[s]);
    }
  }

  // --- switching ---

  // on, off, on, off, ...
  predicate Alternates(s: seq<int>) {
    forall i | 0 <= i < |s| :: s[i] == if i % 2 == 0 then PATH_ON else PATH_OFF
  }

  // The paths applied alternate from "on", and the last is "on" exactly while the count is positive.
  predicate InStep(b: Switchboard) {
    b.count >= 0 && Alternates(b.applied) && (|b.applied| % 2 == 1 <==> b.count > 0)
  }

  predicate Switched(m: Manager, d: nat) {
    d < |m.devices| && InStep(Board(m, d))
  }

  // No "off" is asked for while the count is zero.
  predicate Safe(c: int, sw: seq<int>)
    decreases |sw|
  {
    sw != [] ==> (sw[0] == PATH_OFF ==> c >= 1) && Safe(c + Change(sw[0]), sw[1..])
  }

  predicate OnlySwitches(sw: seq<int>) {
    forall i | 0 <= i < |sw| :: !Custom(sw[i])
  }

  lemma TurnInStep(b: Switchboard, path: int)
    requires InStep(b) && !Custom(path)
    ensures (path == PATH_OFF ==> b.count >= 1) ==> InStep(Turn(b, path))
    ensures path == PATH_OFF && b.count < 1 ==> !Alternates(Turn(b, path).applied)
  {
    if path == PATH_OFF && b.count < 1 {
      assert Turn(b, path).applied[|b.applied|] == PATH_OFF;
    }
  }

  lemma {:induction false} TurnsExtend(b: Switchboard, sw: seq<int>)
    ensures b.applied <= Turns(b, sw).applied
    decreases |sw|
  {
    if sw != [] {
      TurnsExtend(Turn(b, sw[0]), sw[1..]);
    }
  }

  lemma PrefixAlternates(a: seq<int>, b: seq<int>)
    requires Alternates(b) && a <= b
    ensures Alternates(a)
  {
    assert forall i | 0 <= i < |a| :: a[i] == b[i];
  }

  lemma {:induction false} TurnsInStep(b: Switchboard, sw: seq<int>)
    requires InStep(b) && OnlySwitches(sw)
    ensures Safe(b.count, sw) <==> InStep(Turns(b, sw))
    decreases |sw|
  {
    if sw != [] {
      var b1 := Turn(b, sw[0]);
      TurnInStep(b, sw[0]);
      if sw[0] == PATH_OFF ==> b.count >= 1 {
        TurnsInStep(b1, sw[1..]);
      } else {
        TurnsExtend(b1, sw[1..]);
        if Alternates(Turns(b, sw).applied) {
          PrefixAlternates(b1.applied, Turns(b, sw).applied);
        }
      }
    }
  }

  lemma OpSwitchesAreSwitches(m: Manager, op: Op, d: nat)
    requires op.s < |m.streams| && d < |m.devices|
    ensures Declared(m.devices[d], OpSwitches(m, op, d))
  {
    var st, dev := m.streams[op.s], m.devices[d];
    DeclaredSwitches(dev, PATH_ON, st.enablePath);
    DeclaredSwitches(dev, st.disablePath, PATH_OFF);
    DeclaredSwitches(dev, PATH_OFF, st.disablePath);
    match op
    case OpenStream(_) =>
    case SetRoute(_, route) =>
      DeclaredConcat(dev, WalkSwitches(m, Leaving(st.current, route), st.disablePath, PATH_OFF, d),
                     WalkSwitches(m, Entering(st.current, route), PATH_ON, st.enablePath, d));
    case ReleaseStream(_) =>
      DeclaredConcat(dev, WalkSwitches(m, st.current, PATH_OFF, st.disablePath, d),
                     GlobalSwitches(m, st.disablePath, PATH_OFF, d));
  }

  predicate Declared(dev: Device, sw: seq<int>) {
    OnlySwitches(sw) && forall p | p in sw :: p in dev.paths
  }

  lemma DeclaredSwitches(dev: Device, first: int, second: int)
    ensures Declared(dev, Switches(dev, first, second))
  {
  }

  lemma DeclaredConcat(dev: Device, a: seq<int>, b: seq<int>)
    requires Declared(dev, a) && Declared(dev, b)
    ensures Declared(dev, a + b)
  {
  }

  ghost predicate SafeAt(m: Manager, op: Op, d: nat)
    requires op.s < |m.streams| && d < |m.devices|
  {
    Safe(m.devices[d].useCount, OpSwitches(m, op, d))
  }

  lemma StepSwitchesExactly(m: Manager, op: Op, d: nat)
    requires op.s < |m.streams| && Switched(m, d)
    ensures Switched(Apply(m, op), d) <==> SafeAt(m, op, d)
  {
    OpDoes(m, op, d);
    OpSwitchesAreSwitches(m, op, d);
    TurnsInStep(Board(m, d), OpSwitches(m, op, d));
  }

  ghost predicate SwitchedThroughout(m: Manager, ops: seq<Op>, d: nat)
    decreases |ops|
  {
    Switched(m, d) && (ops != [] ==> ops[0].s < |m.streams| && SwitchedThroughout(Apply(m, ops[0]), ops[1..], d))
  }

  ghost predicate EachSafe(m: Manager, ops: seq<Op>, d: nat)
    decreases |ops|
  {
    ops != [] ==>
      && ops[0].s < |m.streams| && d < |m.devices| && SafeAt(m, ops[0], d)
      && EachSafe(Apply(m, ops[0]), ops[1..], d)
  }

  lemma {:induction false} RunSwitchesExactly(m: Manager, ops: seq<Op>, m': Manager, d: nat)
    requires Runs(m, ops, m') && Switched(m, d)
    ensures SwitchedThroughout(m, ops, d) <==> EachSafe(m, ops, d)
    ensures SwitchedThroughout(m, ops, d) ==> Switched(m', d)
    decreases |ops|
  {
    if ops != [] {
      var m1 := Apply(m, ops[0]);
      StepSwitchesExactly(m, ops[0], d);
      if Switched(m1, d) {
        RunSwitchesExactly(m1, ops[1..], m', d);
      }
    }
  }

  // The stream's own paths are neither "on" nor "off".
  predicate OwnPaths(m: Manager) {
    forall s | 0 <= s < |m.streams| :: Custom(m.streams[s].enablePath) && Custom(m.streams[s].disablePath)
  }

  // The operation asks "off", or "on", of device d.
  ghost predicate AsksOff(m: Manager, op: Op, d: nat)
    requires op.s < |m.streams| && d < |m.devices|
  {
    var st := m.streams[op.s];
    && PATH_OFF in m.devices[d].paths
    && match op
       case OpenStream(_) => false
       case SetRoute(_, route) => !WrongDirection(st, route) && Leaves(m, st, route, d)
       case ReleaseStream(_) => st.refCount == 1 && (FirstGlobal(m, d) || d in WalkOf(Kinds(m), st.current))
  }

  ghost predicate AsksOn(m: Manager, op: Op, d: nat)
    requires op.s < |m.streams| && d < |m.devices|
  {
    var st := m.streams[op.s];
    && PATH_ON in m.devices[d].paths
    && match op
       case OpenStream(s) => CanOpen(m, s) && st.refCount == 0 && FirstGlobal(m, d)
       case SetRoute(_, route) => !WrongDirection(st, route) && Enters(m, st, route, d)
       case ReleaseStream(_) => false
  }

  function Pair(off: bool, on: bool): seq<int> {
    (if off then [PATH_OFF] else []) + (if on then [PATH_ON] else [])
  }

  lemma OpSwitchesArePair(m: Manager, op: Op, d: nat)
    requires op.s < |m.streams| && d < |m.devices|
    requires Custom(m.streams[op.s].enablePath) && Custom(m.streams[op.s].disablePath)
    ensures OpSwitches(m, op, d) == Pair(AsksOff(m, op, d), AsksOn(m, op, d))
  {
    if FirstGlobal(m, d) {
      GlobalIsNotWalked(m, m.streams[op.s].current, d);
    }
  }

  lemma SafePair(c: int, off: bool, on: bool)
    ensures Safe(c, Pair(off, on)) <==> (off ==> c >= 1)
  {
    assert Safe(c, Pair(false, on)) && Safe(c - 1, Pair(false, on)) by {
      assert on ==> Pair(false, on) == [PATH_ON] && [PATH_ON][1..] == [];
    }
    if off {
      assert Pair(off, on)[0] == PATH_OFF && Pair(off, on)[1..] == Pair(false, on);
    }
  }

  // Every "off" of the run is asked of a device that somebody uses.
  ghost predicate EachOffIsUsed(m: Manager, ops: seq<Op>, d: nat)
    decreases |ops|
  {
    ops != [] ==>
      && ops[0].s < |m.streams| && d < |m.devices| && (AsksOff(m, ops[0], d) ==> Expected(m, d) > 0)
      && EachOffIsUsed(Apply(m, ops[0]), ops[1..], d)
  }

  lemma ApplyKeepsOwnPaths(m: Manager, op: Op)
    requires OwnPaths(m) && op.s < |m.streams|
    ensures OwnPaths(Apply(m, op))
  {
    ApplyFrame(m, op);
  }

  lemma {:induction false} SafeExactly(m: Manager, ops: seq<Op>, m': Manager, d: nat)
    requires Runs(m, ops, m') && OwnPaths(m) && RightThroughout(m, ops, d)
    ensures EachSafe(m, ops, d) <==> EachOffIsUsed(m, ops, d)
    decreases |ops|
  {
    if ops != [] {
      OpSwitchesArePair(m, ops[0], d);
      SafePair(m.devices[d].useCount, AsksOff(m, ops[0], d), AsksOn(m, ops[0], d));
      ApplyKeepsOwnPaths(m, ops[0]);
      SafeExactly(Apply(m, ops[0]), ops[1..], m', d);
    }
  }

  // Over any run the "on" and "off" paths of a device alternate from "on", the last one "on" exactly while its
  // count is positive, if and only if no operation asks for "off" at a count of zero. If the counts are right as
  // well, the device is on exactly while some stream uses it: it goes off with its last user.
  lemma SwitchingAfterAnyRun(m0: Manager, ops: seq<Op>, m: Manager, d: nat)
    requires Fresh(m0) && Runs(m0, ops, m) && d < |m0.devices|
    ensures SwitchedThroughout(m0, ops, d) <==> EachSafe(m0, ops, d)
    ensures EachPays(m0, ops, d) && OwnPaths(m0) ==>
      (SwitchedThroughout(m0, ops, d) <==> EachOffIsUsed(m0, ops, d))
    ensures EachPays(m0, ops, d) && EachSafe(m0, ops, d) ==>
      Switched(m, d) && (EndsOn(OnOff(m.log, d)) <==> Expected(m, d) > 0)
  {
    RunSwitchesExactly(m0, ops, m, d);
    CountsAfterAnyRun(m0, ops, m, d);
    if EachPays(m0, ops, d) && OwnPaths(m0) {
      SafeExactly(m0, ops, m, d);
    }
    if Switched(m, d) {
      LastIsOn(Board(m, d));
    }
  }

  // The last of the paths applied is "on".
  predicate EndsOn(applied: seq<int>) {
    applied != [] && applied[|applied| - 1] == PATH_ON
  }

  lemma LastIsOn(b: Switchboard)
    requires InStep(b)
    ensures EndsOn(b.applied) <==> b.count > 0
  {
  }

  // --- when a reroute is right ---

  // The walks for what leaves and what enters treat d as they should.
  ghost predicate WalksMean(m: Manager, st: Stream, route: Mask, d: nat) {
    var kinds, leaving, entering := Kinds(m), Leaving(st.current, route), Entering(st.current, route);
    && (d in WalkOf(kinds, leaving) <==> d in Meant(kinds, leaving, st.input))
    && (d in WalkOf(kinds, entering) <==> d in Meant(kinds, entering, st.input))
  }

  // What the masks say of one device: its bits are in the old and the new route, it has the direction of the
  // stream, the platform masks keep it, its bits are among those that leave and those that enter.
  datatype Marks = Marks(current: bool, route: bool, own: bool, kept: bool, leaves: bool, enters: bool)

  function MarksOf(m: Manager, st: Stream, route: Mask, kind: Mask): Marks {
    Marks(Has(st.current, kind), Has(route, kind), In(kind) == st.input, Names(Masked(m, route), kind),
          Has(Leaving(st.current, route), kind), Has(Entering(st.current, route), kind))
  }

  predicate Coherent(k: Marks) {
    && (k.kept ==> k.route && k.own) && (k.leaves ==> k.current) && (k.enters ==> k.route)
    && (!k.route ==> k.leaves == k.current) && (!k.current ==> k.enters == k.route)
  }

  // Entering, "on" is declared exactly when the masks keep the device; leaving, "off" is declared; staying, as many
  // counted paths bring it in as take it out, or it is taken out when the masks drop it.
  predicate Paid(k: Marks, on: bool, off: bool) {
    k.own ==>
      if k.current && k.route then
        if k.kept then (k.enters && on <==> k.leaves && off) else k.leaves && off && !(k.enters && on)
      else if k.route then on <==> k.kept
      else k.current ==> off
  }

  function MarksChange(k: Marks, on: bool, off: bool): int {
    One(k.own && k.enters && on) - One(k.own && k.leaves && off)
  }

  lemma PaidExactly(k: Marks, on: bool, off: bool)
    requires Coherent(k)
    ensures MarksChange(k, on, off) == One(k.kept) - One(k.current && k.own) <==> Paid(k, on, off)
  {
  }

  lemma MarksAreCoherent(m: Manager, st: Stream, route: Mask, kind: Mask)
    requires StreamOk(st) && !WrongDirection(st, route)
    ensures Coherent(MarksOf(m, st, route, kind))
    ensures Names(st.current, kind) <==> MarksOf(m, st, route, kind).current && MarksOf(m, st, route, kind).own
  {
    DifferenceMarks(st.current, route, kind);
    NamesOwnDirection(st.current, kind, st.input);
    if Names(Masked(m, route), kind) {
      MaskedNames(m, st, route, kind);
    }
  }

  lemma MaskedNames(m: Manager, st: Stream, route: Mask, kind: Mask)
    requires !WrongDirection(st, route) && Names(Masked(m, route), kind)
    ensures Has(route, kind) && In(kind) == st.input
  {
    MaskedRouteNames(route, m.inAll, m.outAll, kind);
    NothingHasGlobal({}, {});
  }

  // What a reroute has to pay where its walks mean d.
  predicate RoutePaid(m: Manager, st: Stream, route: Mask, d: nat)
    requires d < |m.devices|
  {
    Paid(MarksOf(m, st, route, m.devices[d].kind), PATH_ON in m.devices[d].paths, PATH_OFF in m.devices[d].paths)
  }

  lemma WorthOfOwnPaths(dev: Device, path: int)
    requires Custom(path)
    ensures Worth(dev, PATH_ON, path) == One(PATH_ON in dev.paths)
    ensures Worth(dev, path, PATH_OFF) == Worth(dev, PATH_OFF, path) == -One(PATH_OFF in dev.paths)
  {
  }

  lemma RoutePaysExactly(m: Manager, st: Stream, route: Mask, d: nat)
    requires d < |m.devices| && StreamOk(st) && !WrongDirection(st, route) && WalksMean(m, st, route, d)
    requires Custom(st.enablePath) && Custom(st.disablePath)
    ensures RoutePays(m, st, route, d) <==> RoutePaid(m, st, route, d)
  {
    var dev := m.devices[d];
    var k := MarksOf(m, st, route, dev.kind);
    WorthOfOwnPaths(dev, st.enablePath);
    WorthOfOwnPaths(dev, st.disablePath);
    MarksAreCoherent(m, st, route, dev.kind);
    assert Leaves(m, st, route, d) <==> k.own && k.leaves;
    assert Enters(m, st, route, d) <==> k.own && k.enters;
    PaidExactly(k, PATH_ON in dev.paths, PATH_OFF in dev.paths);
  }

  // A reroute keeps a right count right if and only if it pays, for any walks and paths; where the walks mean the
  // device and the stream's paths are its own, that is: declared paths, kept by the masks, balanced.
  lemma RouteCountsExactly(m: Manager, s: nat, route: Mask, d: nat)
    requires StreamsOk(m) && s < |m.streams| && m.streams[s].refCount > 0 && CountRight(m, d)
    requires !WrongDirection(m.streams[s], route)
    ensures CountRight(Route(m, s, route), d) <==> RoutePays(m, m.streams[s], route, d)
    ensures OwnPaths(m) && WalksMean(m, m.streams[s], route, d) ==>
      (CountRight(Route(m, s, route), d) <==> RoutePaid(m, m.streams[s], route, d))
  {
    assert StreamOk(m.streams[s]);
    StepCountsExactly(m, SetRoute(s, route), d);
    if OwnPaths(m) && WalksMean(m, m.streams[s], route, d) {
      RoutePaysExactly(m, m.streams[s], route, d);
    }
  }

  // --- the same over runs whose walks mean the device ---

  ghost predicate Means(m: Manager, op: Op, d: nat)
    requires op.s < |m.streams| && d < |m.devices|
  {
    var st := m.streams[op.s];
    match op
    case OpenStream(_) => true
    case SetRoute(_, route) => !WrongDirection(st, route) ==> WalksMean(m, st, route, d)
    case ReleaseStream(_) => d in WalkOf(Kinds(m), st.current) <==> Names(st.current, m.devices[d].kind)
  }

  // A reroute is paid; a first open finds the global device with its "on"; a last release finds it with its "off",
  // and every device it used declares "off".
  predicate Settles(m: Manager, op: Op, d: nat)
    requires op.s < |m.streams| && d < |m.devices|
  {
    var st, dev := m.streams[op.s], m.devices[d];
    match op
    case OpenStream(s) =>
      CanOpen(m, s) && st.refCount == 0 && dev.kind == {} ==> FirstGlobal(m, d) && PATH_ON in dev.paths
    case SetRoute(_, route) => !WrongDirection(st, route) ==> RoutePaid(m, st, route, d)
    case ReleaseStream(_) =>
      && (st.refCount == 1 && dev.kind == {} ==> FirstGlobal(m, d) && PATH_OFF in dev.paths)
      && (st.refCount == 1 && Names(st.current, dev.kind) ==> PATH_OFF in dev.paths)
  }

  lemma SettlesExactly(m: Manager, op: Op, d: nat)
    requires op.s < |m.streams| && d < |m.devices| && StreamOk(m.streams[op.s]) && Means(m, op, d)
    requires Custom(m.streams[op.s].enablePath) && Custom(m.streams[op.s].disablePath)
    ensures Pays(m, op, d) <==> Settles(m, op, d)
  {
    var st := m.streams[op.s];
    WorthOfOwnPaths(m.devices[d], st.enablePath);
    WorthOfOwnPaths(m.devices[d], st.disablePath);
    NothingHasGlobal(st.current, {});
    if op.SetRoute? && !WrongDirection(st, op.route) {
      RoutePaysExactly(m, st, op.route, d);
    }
  }

  ghost predicate EachMeans(m: Manager, ops: seq<Op>, d: nat)
    decreases |ops|
  {
    ops != [] ==>
      && ops[0].s < |m.streams| && d < |m.devices| && Means(m, ops[0], d)
      && EachMeans(Apply(m, ops[0]), ops[1..], d)
  }

  ghost predicate EachSettles(m: Manager, ops: seq<Op>, d: nat)
    decreases |ops|
  {
    ops != [] ==>
      && ops[0].s < |m.streams| && d < |m.devices| && Settles(m, ops[0], d)
      && EachSettles(Apply(m, ops[0]), ops[1..], d)
  }

  lemma {:induction false} EachSettlesExactly(m: Manager, ops: seq<Op>, m': Manager, d: nat)
    requires StreamsOk(m) && OwnPaths(m) && Runs(m, ops, m') && EachMeans(m, ops, d)
    ensures EachPays(m, ops, d) <==> EachSettles(m, ops, d)
    decreases |ops|
  {
    if ops != [] {
      assert StreamOk(m.streams[ops[0].s]);
      SettlesExactly(m, ops[0], d);
      ApplyKeepsStreamsOk(m, ops[0]);
      ApplyKeepsOwnPaths(m, ops[0]);
      EachSettlesExactly(Apply(m, ops[0]), ops[1..], m', d);
    }
  }

  // Where the walks mean d, an "off" is asked of it only if the stream was using it.
  lemma MeantOffIsUsed(m: Manager, op: Op, d: nat)
    requires StreamsOk(m) && Legal(m, op) && d < |m.devices| && Means(m, op, d) && AsksOff(m, op, d)
    ensures Expected(m, d) > 0
  {
    var st, kind := m.streams[op.s], m.devices[d].kind;
    assert StreamOk(st);
    UsersUpdate(m.streams, op.s, st, kind);
    OpenStreamsUpdate(m.streams, op.s, st);
    NothingHasGlobal(st.current, {});
    if op.SetRoute? {
      MarksAreCoherent(m, st, op.route, kind);
    }
  }

  lemma {:induction false} EachMeantOffIsUsed(m: Manager, ops: seq<Op>, m': Manager, d: nat)
    requires StreamsOk(m) && Runs(m, ops, m') && EachMeans(m, ops, d)
    ensures EachOffIsUsed(m, ops, d)
    decreases |ops|
  {
    if ops != [] {
      if AsksOff(m, ops[0], d) {
        MeantOffIsUsed(m, ops[0], d);
      }
      ApplyKeepsStreamsOk(m, ops[0]);
      EachMeantOffIsUsed(Apply(m, ops[0]), ops[1..], m', d);
    }
  }

  // Where the walks of the run mean d, its count is right throughout if and only if every reroute is paid, every
  // used device declares "off" when its stream closes, and opening and closing find the global device with its path.
  // Its switching is then right as well.
  lemma MeantRunCountsExactly(m0: Manager, ops: seq<Op>, m: Manager, d: nat)
    requires Fresh(m0) && OwnPaths(m0) && Runs(m0, ops, m) && d < |m0.devices| && EachMeans(m0, ops, d)
    ensures RightThroughout(m0, ops, d) <==> EachSettles(m0, ops, d)
    ensures EachSettles(m0, ops, d) ==>
      && CountRight(m, d) && Switched(m, d) && SwitchedThroughout(m0, ops, d)
      && (EndsOn(OnOff(m.log, d)) <==> Expected(m, d) > 0)
  {
    CountsAfterAnyRun(m0, ops, m, d);
    EachSettlesExactly(m0, ops, m, d);
    EachMeantOffIsUsed(m0, ops, m, d);
    SwitchingAfterAnyRun(m0, ops, m, d);
  }

  // --- the streams' own paths ---

  // The paths other than "on" and "off" applied to device d, in order.
  function OwnLog(log: seq<Applied>, d: nat): seq<int> {
    if log == [] then []
    else
      var last := log[|log| - 1];
      OwnLog(log[..|log| - 1], d) + (if last.device == d && Custom(last.path) then [last.path] else [])
  }

  lemma OwnLogSnoc(log: seq<Applied>, a: Applied, d: nat)
    ensures OwnLog(log + [a], d) == OwnLog(log, d) + (if a.device == d && Custom(a.path) then [a.path] else [])
  {
    assert (log + [a])[..|log|] == log;
  }

  // The path is one of the stream's own, and the device declares it.
  predicate Owns(dev: Device, path: int) {
    Custom(path) && path in dev.paths
  }

  function OwnOf(dev: Device, first: int, second: int): seq<int> {
    (if Owns(dev, first) then [first] else []) + (if Owns(dev, second) && second != first then [second] else [])
  }

  // From m to m' the paths `own`, besides "on" and "off", have been applied to device d.
  predicate Adds(m: Manager, m': Manager, d: nat, own: seq<int>) {
    OwnLog(m'.log, d) == OwnLog(m.log, d) + own
  }

  lemma AddsBoth(m: Manager, m1: Manager, m2: Manager, d: nat, a: seq<int>, b: seq<int>)
    requires Adds(m, m1, d, a) && Adds(m1, m2, d, b)
    ensures Adds(m, m2, d, a + b)
  {
    assert OwnLog(m.log, d) + (a + b) == OwnLog(m.log, d) + a + b;
  }

  lemma ApplyOneAdds(m: Manager, d: nat, path: int, j: nat)
    requires d < |m.devices|
    ensures Adds(m, ApplyDevicePath(m, d, path), j, if j == d && Custom(path) then [path] else [])
    ensures ApplyDevicePath(m, d, path).devices[d].paths == m.devices[d].paths
  {
    OwnLogSnoc(m.log, Applied(d, path), j);
  }

  lemma ApplyPathsAdds(m: Manager, d: nat, first: int, second: int, j: nat)
    requires d < |m.devices|
    ensures Adds(m, ApplyPaths(m, d, first, second), j, if j == d then OwnOf(m.devices[d], first, second) else [])
  {
    var m1 := if first in m.devices[d].paths then ApplyDevicePath(m, d, first) else m;
    var m2 := ApplyPaths(m, d, first, second);
    var a := if j == d && Owns(m.devices[d], first) then [first] else [];
    var b := if j == d && Owns(m.devices[d], second) && second != first then [second] else [];
    ApplyOneAdds(m, d, first, j);
    ApplyOneAdds(m1, d, second, j);
    assert Adds(m, m1, j, a) && Adds(m1, m2, j, b);
    AddsBoth(m, m1, m2, j, a, b);
    assert j != d ==> a + b == [];
  }

  lemma {:induction false} EachAdds(m: Manager, k: nat, hit: set<nat>, first: int, second: int, j: nat)
    requires k <= |m.devices| && j < |m.devices|
    ensures Adds(m, Each(m, k, hit, first, second), j,
                 if k <= j && j in hit then OwnOf(m.devices[j], first, second) else [])
    decreases |m.devices| - k
  {
    if k == |m.devices| {
    } else if k in hit {
      var m1 := ApplyPaths(m, k, first, second);
      var a, b := if j == k then OwnOf(m.devices[k], first, second) else [],
                  if k + 1 <= j && j in hit then OwnOf(m1.devices[j], first, second) else [];
      ApplyPathsFrame(m, k, first, second);
      ApplyPathsAdds(m, k, first, second, j);
      EachAdds(m1, k + 1, hit, first, second, j);
      AddsBoth(m, m1, Each(m1, k + 1, hit, first, second), j, a, b);
      ConcatParts(a, b);
    } else {
      EachAdds(m, k + 1, hit, first, second, j);
    }
  }

  lemma DevicesAdds(m: Manager, devices: Mask, first: int, second: int, d: nat)
    requires d < |m.devices|
    ensures Adds(m, ApplyToDevices(m, devices, first, second), d,
                 if d in WalkOf(Kinds(m), devices) then OwnOf(m.devices[d], first, second) else [])
  {
    WalkIsEach(m, 0, devices * BIT_IN, devices - BIT_IN, first, second);
    EachAdds(m, 0, WalkOf(Kinds(m), devices), first, second, d);
  }

  lemma {:induction false} GlobalAdds(m: Manager, k: nat, first: int, second: int, d: nat)
    requires k <= |m.devices| && d < |m.devices| && forall e | 0 <= e < k :: m.devices[e].kind != {}
    ensures Adds(m, ApplyToGlobal(m, k, first, second), d,
                 if FirstGlobal(m, d) then OwnOf(m.devices[d], first, second) else [])
    decreases |m.devices| - k
  {
    if k == |m.devices| {
    } else if m.devices[k].kind == {} {
      ApplyPathsAdds(m, k, first, second, d);
    } else {
      GlobalAdds(m, k + 1, first, second, d);
    }
  }

  // The operation asks the stream's disable path, or its enable path, of device d.
  ghost predicate AsksDisable(m: Manager, op: Op, d: nat)
    requires op.s < |m.streams| && d < |m.devices|
  {
    var st := m.streams[op.s];
    && Owns(m.devices[d], st.disablePath)
    && match op
       case OpenStream(_) => false
       case SetRoute(_, route) => !WrongDirection(st, route) && Leaves(m, st, route, d)
       case ReleaseStream(_) => st.refCount == 1 && (FirstGlobal(m, d) || d in WalkOf(Kinds(m), st.current))
  }

  ghost predicate AsksEnable(m: Manager, op: Op, d: nat)
    requires op.s < |m.streams| && d < |m.devices|
  {
    var st := m.streams[op.s];
    && Owns(m.devices[d], st.enablePath)
    && match op
       case OpenStream(s) => CanOpen(m, s) && st.refCount == 0 && FirstGlobal(m, d)
       case SetRoute(_, route) => !WrongDirection(st, route) && Enters(m, st, route, d)
       case ReleaseStream(_) => false
  }

  lemma OpenAdds(m: Manager, s: nat, d: nat)
    requires s < |m.streams| && d < |m.devices|
    ensures Adds(m, Apply(m, OpenStream(s)), d,
                 if AsksEnable(m, OpenStream(s), d) then [m.streams[s].enablePath] else [])
  {
    var st := m.streams[s];
    GlobalAdds(SetStream(m, s, st.(refCount := st.refCount + 1)), 0, PATH_ON, st.enablePath, d);
  }

  lemma RouteAdds(m: Manager, s: nat, route: Mask, d: nat)
    requires s < |m.streams| && d < |m.devices|
    ensures var st, op := m.streams[s], SetRoute(s, route);
            Adds(m, Route(m, s, route), d, (if AsksDisable(m, op, d) then [st.disablePath] else [])
                                           + (if AsksEnable(m, op, d) then [st.enablePath] else []))
  {
    var st := m.streams[s];
    if !WrongDirection(st, route) {
      var leaving, entering := Leaving(st.current, route), Entering(st.current, route);
      var m1 := ApplyToDevices(m, leaving, st.disablePath, PATH_OFF);
      ApplyToDevicesFrame(m, leaving, st.disablePath, PATH_OFF);
      SameFrameKinds(m, m1);
      DevicesAdds(m, leaving, st.disablePath, PATH_OFF, d);
      DevicesAdds(m1, entering, PATH_ON, st.enablePath, d);
      AddsBoth(m, m1, Rerouted(m, st, leaving, entering), d,
               if AsksDisable(m, SetRoute(s, route), d) then [st.disablePath] else [],
               if AsksEnable(m, SetRoute(s, route), d) then [st.enablePath] else []);
    }
  }

  lemma ReleaseAdds(m: Manager, s: nat, d: nat)
    requires s < |m.streams| && d < |m.devices|
    ensures Adds(m, Release(m, s), d, if AsksDisable(m, ReleaseStream(s), d) then [m.streams[s].disablePath] else [])
  {
    var st := m.streams[s];
    if st.refCount == 1 {
      var m1 := SetStream(m, s, st.(refCount := 0));
      assert Kinds(m1) == Kinds(m);
      var m2 := ApplyToDevices(m1, st.current, PATH_OFF, st.disablePath);
      ApplyToDevicesFrame(m1, st.current, PATH_OFF, st.disablePath);
      DevicesAdds(m1, st.current, PATH_OFF, st.disablePath, d);
      GlobalAdds(m2, 0, st.disablePath, PATH_OFF, d);
      if FirstGlobal(m, d) {
        GlobalIsNotWalked(m, st.current, d);
      }
    }
  }

  // A stream's own path is applied, once, to exactly the devices an operation reaches that declare it: the enable path
  // where "on" is asked for, the disable path where "off" is, whatever the counts.
  lemma OwnPathsApplied(m: Manager, op: Op, d: nat)
    requires op.s < |m.streams| && d < |m.devices|
    ensures OwnLog(Apply(m, op).log, d) ==
              OwnLog(m.log, d) + (if AsksDisable(m, op, d) then [m.streams[op.s].disablePath] else [])
                               + (if AsksEnable(m, op, d) then [m.streams[op.s].enablePath] else [])
  {
    match op
    case OpenStream(s) => OpenAdds(m, s, d);
    case SetRoute(s, route) => RouteAdds(m, s, route, d);
    case ReleaseStream(s) => ReleaseAdds(m, s, d);
  }

  // --- configurations and routes for which every run is right ---

  // Device types share no low bit, every device declares "on" and "off", there is at most one global device, and the
  // streams' own paths are neither.
  ghost predicate Tidy(m: Manager) {
    && Apart(Kinds(m)) && OwnPaths(m)
    && (forall d | 0 <= d < |m.devices| :: PATH_ON in m.devices[d].paths && PATH_OFF in m.devices[d].paths)
    && (forall d, e | 0 <= d < e < |m.devices| :: m.devices[d].kind != {} || m.devices[e].kind != {})
  }

  // The route names only devices of the stream's direction.
  predicate OneWay(m: Manager, input: bool, route: Mask) {
    forall e | 0 <= e < |m.devices| && Has(route, m.devices[e].kind) :: In(m.devices[e].kind) == input
  }

  predicate StreamsOneWay(m: Manager) {
    forall s | 0 <= s < |m.streams| :: OneWay(m, m.streams[s].input, m.streams[s].current)
  }

  // The old and the new share of a device's bits are equal, or each has one that the other lacks.
  predicate Balanced(current: Mask, route: Mask, kind: Mask) {
    Has(current, kind) && Has(route, kind) ==>
      (Has(Leaving(current, route), kind) <==> Has(Entering(current, route), kind))
  }

  // One-bit types are always balanced.
  lemma SingleBitIsBalanced(current: Mask, route: Mask, kind: Mask)
    requires SingleBit(kind)
    ensures Balanced(current, route, kind)
  {
    SingleBitMarks(current, route, kind);
  }

  // The platform masks keep the device, and the route is balanced for it.
  predicate FitsAt(m: Manager, st: Stream, route: Mask, kind: Mask) {
    (Names(route, kind) ==> Names(Masked(m, route), kind)) && Balanced(st.current, route, kind)
  }

  predicate OneWayOp(m: Manager, op: Op)
    requires op.s < |m.streams|
  {
    op.SetRoute? && !WrongDirection(m.streams[op.s], op.route) ==> OneWay(m, m.streams[op.s].input, op.route)
  }

  // What a caller of apply_route has to see to.
  predicate Fits(m: Manager, op: Op)
    requires op.s < |m.streams|
  {
    && OneWayOp(m, op)
    && (op.SetRoute? && !WrongDirection(m.streams[op.s], op.route) ==>
          forall d | 0 <= d < |m.devices| :: FitsAt(m, m.streams[op.s], op.route, m.devices[d].kind))
  }

  // Where device types share no low bit and the routes name only devices of the stream's direction, both walks
  // mean every device.
  lemma ApartWalksMean(m: Manager, st: Stream, route: Mask, d: nat)
    requires StreamOk(st) && !WrongDirection(st, route) && Apart(Kinds(m)) && d < |m.devices|
    requires OneWay(m, st.input, st.current) && OneWay(m, st.input, route)
    ensures WalksMean(m, st, route, d)
  {
    var kinds := Kinds(m);
    forall e: nat | e < |kinds|
      ensures Has(Leaving(st.current, route), kinds[e]) ==> Has(st.current, m.devices[e].kind)
      ensures Has(Entering(st.current, route), kinds[e]) ==> Has(route, m.devices[e].kind)
    {
      DifferenceMarks(st.current, route, kinds[e]);
    }
    ApartWalkIsExact(kinds, Leaving(st.current, route), st.input);
    ApartWalkIsExact(kinds, Entering(st.current, route), st.input);
  }

  lemma TidyMeans(m: Manager, op: Op, d: nat)
    requires Tidy(m) && StreamsOk(m) && StreamsOneWay(m) && Legal(m, op) && OneWayOp(m, op) && d < |m.devices|
    ensures Means(m, op, d)
  {
    var st := m.streams[op.s];
    assert StreamOk(st) && OneWay(m, st.input, st.current);
    if op.SetRoute? && !WrongDirection(st, op.route) {
      ApartWalksMean(m, st, op.route, d);
    } else if op.ReleaseStream? {
      ApartWalkIsExact(Kinds(m), st.current, st.input);
      NamesOwnDirection(st.current, m.devices[d].kind, st.input);
    }
  }

  // For a device that declares both paths and that the masks keep, paid means balanced.
  lemma DeclaredRouteIsBalanced(m: Manager, st: Stream, route: Mask, d: nat)
    requires d < |m.devices| && StreamOk(st) && !WrongDirection(st, route)
    requires PATH_ON in m.devices[d].paths && PATH_OFF in m.devices[d].paths
    requires Names(route, m.devices[d].kind) ==> Names(Masked(m, route), m.devices[d].kind)
    ensures RoutePaid(m, st, route, d)
       <==> (In(m.devices[d].kind) == st.input ==> Balanced(st.current, route, m.devices[d].kind))
  {
    MarksAreCoherent(m, st, route, m.devices[d].kind);
  }

  lemma OnlyGlobalIsFirst(m: Manager, d: nat)
    requires Tidy(m) && d < |m.devices| && m.devices[d].kind == {}
    ensures FirstGlobal(m, d)
  {
  }

  lemma TidySettles(m: Manager, op: Op, d: nat)
    requires Tidy(m) && StreamsOk(m) && Legal(m, op) && Fits(m, op) && d < |m.devices|
    ensures Settles(m, op, d)
  {
    var st := m.streams[op.s];
    assert StreamOk(st);
    if m.devices[d].kind == {} {
      OnlyGlobalIsFirst(m, d);
    }
    if op.SetRoute? && !WrongDirection(st, op.route) {
      assert FitsAt(m, st, op.route, m.devices[d].kind);
      DeclaredRouteIsBalanced(m, st, op.route, d);
    }
  }

  ghost predicate Right(m: Manager) {
    forall d: nat | d < |m.devices| :: RightDevice(m, d)
  }

  // The count is the number of users, the paths applied alternate from "on", and the device is on exactly while it
  // has users.
  ghost predicate RightDevice(m: Manager, d: nat)
    requires d < |m.devices|
  {
    CountRight(m, d) && Switched(m, d) && (EndsOn(OnOff(m.log, d)) <==> Expected(m, d) > 0)
  }

  lemma TidyStep(m: Manager, op: Op, d: nat)
    requires Tidy(m) && StreamsOk(m) && StreamsOneWay(m) && Legal(m, op) && Fits(m, op)
    requires d < |m.devices| && RightDevice(m, d)
    ensures d < |Apply(m, op).devices| && RightDevice(Apply(m, op), d)
  {
    var st, m' := m.streams[op.s], Apply(m, op);
    assert StreamOk(st);
    TidyMeans(m, op, d);
    SettlesExactly(m, op, d);
    TidySettles(m, op, d);
    StepCountsExactly(m, op, d);
    if AsksOff(m, op, d) {
      MeantOffIsUsed(m, op, d);
    }
    OpSwitchesArePair(m, op, d);
    SafePair(m.devices[d].useCount, AsksOff(m, op, d), AsksOn(m, op, d));
    StepSwitchesExactly(m, op, d);
    LastIsOn(Board(m', d));
  }

  lemma TidyStays(m: Manager, op: Op)
    requires Tidy(m) && StreamsOneWay(m) && Legal(m, op) && OneWayOp(m, op)
    ensures Tidy(Apply(m, op)) && StreamsOneWay(Apply(m, op))
  {
    var st, m' := m.streams[op.s], Apply(m, op);
    ApplyFrame(m, op);
    assert Kinds(m') == Kinds(m);
    ApplyKeepsOwnPaths(m, op);
    NothingHasGlobal({}, {});
    assert OneWay(m, st.input, st.current);
    forall e | 0 <= e < |m.devices| && Has(StreamAfter(m, op).current, m.devices[e].kind)
      ensures In(m.devices[e].kind) == st.input
    {
      if op.SetRoute? {
        MaskedRouteNames(op.route, m.inAll, m.outAll, m.devices[e].kind);
      }
    }
    forall s | 0 <= s < |m.streams| ensures OneWay(m', m'.streams[s].input, m'.streams[s].current) {
      assert OneWay(m, m.streams[s].input, m.streams[s].current);
    }
  }

  ghost predicate FitRun(m: Manager, ops: seq<Op>)
    decreases |ops|
  {
    ops != [] ==> ops[0].s < |m.streams| && Fits(m, ops[0]) && FitRun(Apply(m, ops[0]), ops[1..])
  }

  lemma {:induction false} TidyRunStaysRight(m: Manager, ops: seq<Op>, m': Manager)
    requires Tidy(m) && StreamsOk(m) && StreamsOneWay(m) && Right(m) && Runs(m, ops, m') && FitRun(m, ops)
    ensures Right(m')
    decreases |ops|
  {
    if ops != [] {
      var m1 := Apply(m, ops[0]);
      ApplyFrame(m, ops[0]);
      forall d: nat | d < |m1.devices| ensures RightDevice(m1, d) {
        assert RightDevice(m, d);
        TidyStep(m, ops[0], d);
      }
      TidyStays(m, ops[0]);
      ApplyKeepsStreamsOk(m, ops[0]);
      TidyRunStaysRight(m1, ops[1..], m');
    }
  }

  // In a tidy configuration, after any run of opens, releases and fitting reroutes, every use count is the number of
  // streams routed to the device, the global count is the number of open streams, and each device has been switched
  // on and off in turn and is on exactly while it is used.
  lemma EveryFitRunIsRight(m0: Manager, ops: seq<Op>, m: Manager)
    requires Fresh(m0) && Tidy(m0) && Runs(m0, ops, m) && FitRun(m0, ops)
    ensures forall d: nat | d < |m.devices| :: CountRight(m, d) && Switched(m, d)
    ensures forall d: nat | d < |m.devices| :: EndsOn(OnOff(m.log, d)) <==> Expected(m, d) > 0
  {
    NothingHasGlobal({}, {});
    forall d: nat | d < |m0.devices| ensures RightDevice(m0, d) {
      NobodyUses(m0.streams, m0.devices[d].kind);
    }
    TidyRunStaysRight(m0, ops, m);
    forall d: nat | d < |m.devices|
      ensures CountRight(m, d) && Switched(m, d) && (EndsOn(OnOff(m.log, d)) <==> Expected(m, d) > 0)
    {
      assert RightDevice(m, d);
    }
  }

  // Every device but the global one has a type of one bit, which the platform masks keep.
  ghost predicate OneBitTypes(m: Manager) {
    forall d | 0 <= d < |m.devices| && m.devices[d].kind != {} ::
      && SingleBit(m.devices[d].kind)
      && m.devices[d].kind - BIT_IN <= if In(m.devices[d].kind) then m.inAll else m.outAll
  }

  // Every route of the run names only devices of its stream's direction.
  predicate OneWayRoutes(m: Manager, ops: seq<Op>) {
    forall i | 0 <= i < |ops| && ops[i].SetRoute? && ops[i].s < |m.streams| ::
      OneWay(m, m.streams[ops[i].s].input, ops[i].route)
  }

  lemma KeptByMasks(m: Manager, route: Mask, kind: Mask)
    requires Names(route, kind) && kind - BIT_IN <= if In(kind) then m.inAll else m.outAll
    ensures Names(Masked(m, route), kind)
  {
    var i :| i in route && i in kind && i != IN_BIT;
    assert i in kind - BIT_IN;
    assert i in Masked(m, route);
    MaskedRouteNames(route, m.inAll, m.outAll, kind);
  }

  lemma OneBitFits(m: Manager, op: Op)
    requires OneBitTypes(m) && op.s < |m.streams|
    requires op.SetRoute? ==> OneWay(m, m.streams[op.s].input, op.route)
    ensures Fits(m, op)
  {
    if op.SetRoute? {
      var st := m.streams[op.s];
      forall d | 0 <= d < |m.devices| ensures FitsAt(m, st, op.route, m.devices[d].kind) {
        var kind := m.devices[d].kind;
        if kind == {} {
          NothingHasGlobal(op.route, {});
        } else {
          SingleBitIsBalanced(st.current, op.route, kind);
          if Names(op.route, kind) {
            KeptByMasks(m, op.route, kind);
          }
        }
      }
    }
  }

  lemma OneWayStays(m: Manager, ops: seq<Op>)
    requires ops != [] && ops[0].s < |m.streams| && OneWayRoutes(m, ops)
    ensures OneWayRoutes(Apply(m, ops[0]), ops[1..])
  {
    var m1 := Apply(m, ops[0]);
    ApplyFrame(m, ops[0]);
    forall i | 0 <= i < |ops[1..]| && ops[1..][i].SetRoute? && ops[1..][i].s < |m1.streams|
      ensures OneWay(m1, m1.streams[ops[1..][i].s].input, ops[1..][i].route)
    {
      assert ops[1..][i] == ops[i + 1];
      assert OneWay(m, m.streams[ops[i + 1].s].input, ops[i + 1].route);
    }
  }

  lemma {:induction false} OneBitRunFits(m: Manager, ops: seq<Op>, m': Manager)
    requires OneBitTypes(m) && Runs(m, ops, m') && OneWayRoutes(m, ops)
    ensures FitRun(m, ops)
    decreases |ops|
  {
    if ops != [] {
      OneBitFits(m, ops[0]);
      ApplyFrame(m, ops[0]);
      OneWayStays(m, ops);
      OneBitRunFits(Apply(m, ops[0]), ops[1..], m');
    }
  }

  // With one-bit types all of this is a matter of the configuration and of the masks asked for, known beforehand.
  lemma EveryOneBitRunIsRight(m0: Manager, ops: seq<Op>, m: Manager)
    requires Fresh(m0) && Tidy(m0) && OneBitTypes(m0) && OneWayRoutes(m0, ops) && Runs(m0, ops, m)
    ensures forall d: nat | d < |m.devices| :: CountRight(m, d) && Switched(m, d)
    ensures forall d: nat | d < |m.devices| :: EndsOn(OnOff(m.log, d)) <==> Expected(m, d) > 0
  {
    OneBitRunFits(m0, ops, m);
    EveryFitRunIsRight(m0, ops, m);
  }

  lemma {:induction false} TidyRunMeans(m: Manager, ops: seq<Op>, m': Manager, d: nat)
    requires Tidy(m) && StreamsOk(m) && StreamsOneWay(m) && Runs(m, ops, m') && OneWayRoutes(m, ops) && d < |m.devices|
    ensures EachMeans(m, ops, d)
    decreases |ops|
  {
    if ops != [] {
      TidyMeans(m, ops[0], d);
      TidyStays(m, ops[0]);
      ApplyKeepsStreamsOk(m, ops[0]);
      ApplyFrame(m, ops[0]);
      OneWayStays(m, ops);
      TidyRunMeans(Apply(m, ops[0]), ops[1..], m', d);
    }
  }

  predicate RouteOpPaid(m: Manager, op: Op, d: nat)
    requires op.s < |m.streams| && d < |m.devices|
  {
    op.SetRoute? && !WrongDirection(m.streams[op.s], op.route) ==> RoutePaid(m, m.streams[op.s], op.route, d)
  }

  predicate EachRoutePaid(m: Manager, ops: seq<Op>, d: nat)
    decreases |ops|
  {
    ops != [] ==>
      && ops[0].s < |m.streams| && d < |m.devices| && RouteOpPaid(m, ops[0], d)
      && EachRoutePaid(Apply(m, ops[0]), ops[1..], d)
  }

  // Opening and releasing always settle here.
  lemma {:induction false} OnlyRoutesMatter(m: Manager, ops: seq<Op>, m': Manager, d: nat)
    requires Tidy(m) && StreamsOk(m) && StreamsOneWay(m) && Runs(m, ops, m') && OneWayRoutes(m, ops) && d < |m.devices|
    ensures EachSettles(m, ops, d) <==> EachRoutePaid(m, ops, d)
    decreases |ops|
  {
    if ops != [] {
      if !ops[0].SetRoute? {
        TidySettles(m, ops[0], d);
      }
      TidyStays(m, ops[0]);
      ApplyKeepsStreamsOk(m, ops[0]);
      ApplyFrame(m, ops[0]);
      OneWayStays(m, ops);
      OnlyRoutesMatter(Apply(m, ops[0]), ops[1..], m', d);
    }
  }

  // Types of several bits, or masks that drop a device: the count of d is right throughout if and only if every
  // reroute of the run is paid for d.
  lemma TidyRunCountsExactly(m0: Manager, ops: seq<Op>, m: Manager, d: nat)
    requires Fresh(m0) && Tidy(m0) && OneWayRoutes(m0, ops) && Runs(m0, ops, m) && d < |m0.devices|
    ensures RightThroughout(m0, ops, d) <==> EachRoutePaid(m0, ops, d)
  {
    NothingHasGlobal({}, {});
    TidyRunMeans(m0, ops, m, d);
    OnlyRoutesMatter(m0, ops, m, d);
    MeantRunCountsExactly(m0, ops, m, d);
  }

  // --- devices that lack one of the paths: no device of the shipped configuration declares "off" ---

  predicate AllAre(sw: seq<int>, path: int) {
    forall i | 0 <= i < |sw| :: sw[i] == path
  }

  // "on" applied once, at the first use.
  predicate OnceOn(b: Switchboard) {
    b.count >= 0 && b.applied == if b.count == 0 then [] else [PATH_ON]
  }

  lemma {:induction false} OnlyOns(b: Switchboard, sw: seq<int>)
    requires AllAre(sw, PATH_ON) && OnceOn(b)
    ensures OnceOn(Turns(b, sw)) && Turns(b, sw).count >= b.count
    decreases |sw|
  {
    if sw != [] {
      OnlyOns(Turn(b, sw[0]), sw[1..]);
    }
  }

  lemma {:induction false} OnlyOffs(b: Switchboard, sw: seq<int>)
    requires AllAre(sw, PATH_OFF) && PATH_ON !in b.applied
    ensures PATH_ON !in Turns(b, sw).applied && Turns(b, sw).count <= b.count
    decreases |sw|
  {
    if sw != [] {
      OnlyOffs(Turn(b, sw[0]), sw[1..]);
    }
  }

  // Without "off" the count never falls and "on" is applied once, at the first use, over any run at all.
  lemma {:induction false} WithoutOff(m: Manager, ops: seq<Op>, m': Manager, d: nat)
    requires Runs(m, ops, m') && d < |m.devices| && PATH_OFF !in m.devices[d].paths
    requires OnceOn(Board(m, d))
    ensures d < |m'.devices| && m'.devices[d].useCount >= m.devices[d].useCount && OnceOn(Board(m', d))
    decreases |ops|
  {
    if ops != [] {
      var m1, sw := Apply(m, ops[0]), OpSwitches(m, ops[0], d);
      OpDoes(m, ops[0], d);
      OpSwitchesAreSwitches(m, ops[0], d);
      forall i | 0 <= i < |sw| ensures sw[i] == PATH_ON {
        assert sw[i] in sw;
      }
      OnlyOns(Board(m, d), sw);
      ApplyFrame(m, ops[0]);
      WithoutOff(m1, ops[1..], m', d);
    }
  }

  // Without "on" the count never rises and "on" is never applied.
  lemma {:induction false} WithoutOn(m: Manager, ops: seq<Op>, m': Manager, d: nat)
    requires Runs(m, ops, m') && d < |m.devices| && PATH_ON !in m.devices[d].paths && PATH_ON !in OnOff(m.log, d)
    ensures d < |m'.devices| && m'.devices[d].useCount <= m.devices[d].useCount && PATH_ON !in OnOff(m'.log, d)
    decreases |ops|
  {
    if ops != [] {
      var m1, sw := Apply(m, ops[0]), OpSwitches(m, ops[0], d);
      OpDoes(m, ops[0], d);
      OpSwitchesAreSwitches(m, ops[0], d);
      forall i | 0 <= i < |sw| ensures sw[i] == PATH_OFF {
        assert sw[i] in sw;
      }
      OnlyOffs(Board(m, d), sw);
      ApplyFrame(m, ops[0]);
      WithoutOn(m1, ops[1..], m', d);
    }
  }

  // --- counterexamples ---

  lemma RunsCons(m: Manager, op: Op, ops: seq<Op>, m': Manager)
    requires Legal(m, op) && Runs(Apply(m, op), ops, m')
    ensures Runs(m, [op] + ops, m')
  {
    assert ([op] + ops)[1..] == ops;
  }

  // Three operations make a run.
  lemma RunsThree(m: Manager, a: Op, b: Op, c: Op)
    requires Legal(m, a) && Legal(Apply(m, a), b) && Legal(Apply(Apply(m, a), b), c)
    ensures Runs(m, [a, b, c], Apply(Apply(Apply(m, a), b), c))
  {
    var m1 := Apply(m, a);
    var m2 := Apply(m1, b);
    RunsCons(m2, c, [], Apply(m2, c));
    RunsCons(m1, b, [c], Apply(m2, c));
    RunsCons(m, a, [b, c], Apply(m2, c));
    assert [c] + [] == [c] && [b] + [c] == [b, c] && [a] + [b, c] == [a, b, c];
  }

  // What an operation that asks for at most one switch does to the device.
  lemma OneSwitch(m: Manager, op: Op, d: nat)
    requires op.s < |m.streams| && d < |m.devices| && !(AsksOff(m, op, d) && AsksOn(m, op, d))
    requires Custom(m.streams[op.s].enablePath) && Custom(m.streams[op.s].disablePath)
    ensures d < |Apply(m, op).devices|
    ensures Board(Apply(m, op), d) ==
              if AsksOff(m, op, d) then Turn(Board(m, d), PATH_OFF)
              else if AsksOn(m, op, d) then Turn(Board(m, d), PATH_ON)
              else Board(m, d)
  {
    OpDoes(m, op, d);
    OpSwitchesArePair(m, op, d);
    assert Pair(true, false) == [PATH_OFF] && Pair(false, true) == [PATH_ON] && Pair(false, false) == [];
    TurnsOne(Board(m, d), PATH_OFF);
    TurnsOne(Board(m, d), PATH_ON);
  }

  // One device of a two-bit type (as the SCO types are) and one stream.
  predicate TwoBit(m: Manager, refCount: int, current: Mask, board: Switchboard) {
    && |m.devices| == 1 && m.devices[0].kind == {4, 5} && m.devices[0].paths == [PATH_OFF, PATH_ON]
    && m.outAll == {4, 5} && m.streams == [Stream(0, false, refCount, 1, -1, -1, current)]
    && Board(m, 0) == board
  }

  lemma OneDeviceWalk(kind: Mask, mask: Mask)
    requires Flagless(mask)
    ensures WalkOf([kind], mask) == if exists i | i in mask :: i in kind then {0} else {}
  {
    assert mask * BIT_IN == {} && mask - BIT_IN == mask;
    if mask != {} {
      ReachedStep([kind], 0, {}, mask);
    }
  }

  lemma TwoBitUsers(m: Manager, refCount: int, current: Mask, board: Switchboard)
    requires TwoBit(m, refCount, current, board) && current <= {4, 5}
    ensures Expected(m, 0) == One(current != {})
  {
    assert Users(m.streams[..0], {4, 5}) == 0;
    if current != {} {
      var i :| i in current;
      assert Has(current, {4, 5});
    }
  }

  lemma TwoBitOpens(m: Manager, board: Switchboard)
    requires TwoBit(m, 0, {}, board)
    ensures TwoBit(Apply(m, OpenStream(0)), 1, {}, board)
  {
    OneSwitch(m, OpenStream(0), 0);
    ApplyFrame(m, OpenStream(0));
  }

  // Adding bits of the type to the route turns the device on again.
  lemma TwoBitRoutes(m: Manager, current: Mask, route: Mask, board: Switchboard)
    requires TwoBit(m, 1, current, board) && current < route <= {4, 5}
    ensures TwoBit(Apply(m, SetRoute(0, route)), 1, route, Turn(board, PATH_ON))
  {
    var op, st := SetRoute(0, route), m.streams[0];
    assert Kinds(m) == [{4, 5}] && Leaving(current, route) == {};
    OneDeviceWalk({4, 5}, {});
    var i :| i in route && i !in current;
    assert i in Entering(current, route) && i in {4, 5};
    OneDeviceWalk({4, 5}, Entering(current, route));
    assert AsksOn(m, op, 0) && !AsksOff(m, op, 0);
    OneSwitch(m, op, 0);
    ApplyFrame(m, op);
    assert Masked(m, route) == route;
  }

  lemma TwoBitReleases(m: Manager, current: Mask, board: Switchboard)
    requires TwoBit(m, 1, current, board) && {} < current <= {4, 5}
    ensures TwoBit(Apply(m, ReleaseStream(0)), 0, {}, Turn(board, PATH_OFF))
  {
    assert Kinds(m) == [{4, 5}];
    var i :| i in current;
    assert i in {4, 5};
    OneDeviceWalk({4, 5}, current);
    assert AsksOff(m, ReleaseStream(0), 0);
    OneSwitch(m, ReleaseStream(0), 0);
    ApplyFrame(m, ReleaseStream(0));
  }

  // A run from the start: routing the second bit of a two-bit type counts the same stream again, and its release
  // takes only one of the counts back. The device has been switched on and is never switched off.
  lemma TwoBitTypeLeaks(m0: Manager) returns (m: Manager, m': Manager)
    requires Fresh(m0) && TwoBit(m0, 0, {}, Switchboard(0, []))
    ensures Runs(m0, [OpenStream(0), SetRoute(0, {4}), SetRoute(0, {4, 5})], m)
    ensures |m.devices| == 1 && Expected(m, 0) == 1 && Board(m, 0) == Switchboard(2, [PATH_ON])
    ensures Legal(m, ReleaseStream(0)) && m' == Apply(m, ReleaseStream(0))
    ensures |m'.devices| == 1 && Expected(m', 0) == 0 && Board(m', 0) == Switchboard(1, [PATH_ON])
  {
    var m1 := Apply(m0, OpenStream(0));
    TwoBitOpens(m0, Switchboard(0, []));
    var m2 := Apply(m1, SetRoute(0, {4}));
    TwoBitRoutes(m1, {}, {4}, Switchboard(0, []));
    assert 5 in {4, 5} && {4} < {4, 5};
    TwoBitRoutes(m2, {4}, {4, 5}, Switchboard(1, [PATH_ON]));
    RunsThree(m0, OpenStream(0), SetRoute(0, {4}), SetRoute(0, {4, 5}));
    m := Apply(m2, SetRoute(0, {4, 5}));
    TwoBitUsers(m, 1, {4, 5}, Switchboard(2, [PATH_ON]));
    m' := Apply(m, ReleaseStream(0));
    assert 4 in {4, 5};
    TwoBitReleases(m, {4, 5}, Switchboard(2, [PATH_ON]));
    TwoBitUsers(m', 0, {}, Switchboard(1, [PATH_ON]));
  }

  // The device types of the shipped configuration (audio/audio.mocha.xml), in declared order: speaker, headphone,
  // headset, headset_in, mic.
  const SHIPPED: seq<Mask> := [{1}, {3}, {2}, {4, IN_BIT}, {2, IN_BIT}]

  // The walks of the two reroutes below, one after the other.
  lemma ShippedWalks()
    ensures WalkOf(SHIPPED, {4, IN_BIT}) == {3} && WalkOf(SHIPPED, {4}) == {3} && WalkOf(SHIPPED, {2}) == {2}
  {
    assert {4, IN_BIT} * BIT_IN == BIT_IN && {4, IN_BIT} - BIT_IN == {4};
    assert {4} * BIT_IN == {} && {4} - BIT_IN == {4} && {2} * BIT_IN == {} && {2} - BIT_IN == {2};
    forall d: nat | d < |SHIPPED|
      ensures FairAt(SHIPPED, 0, BIT_IN, {4}, {3}, d) && FairAt(SHIPPED, 0, {}, {4}, {3}, d)
      ensures FairAt(SHIPPED, 0, {}, {2}, {2}, d)
    {
      ShippedTurn(BIT_IN, 4, 3, d);
      ShippedTurn({}, 4, 3, d);
      ShippedTurn({}, 2, 2, d);
    }
    WalkReachesExactly(SHIPPED, BIT_IN, {4}, {3});
    WalkReachesExactly(SHIPPED, {}, {4}, {3});
    WalkReachesExactly(SHIPPED, {}, {2}, {2});
  }

  // The first device that the bit hits takes it, and leaves nothing for the others.
  lemma ShippedTurn(inFlag: Mask, bit: Bit, first: nat, d: nat)
    requires d < |SHIPPED| && first < |SHIPPED| && bit != IN_BIT
    requires Hit(SHIPPED[first], inFlag, {bit}) && forall e | 0 <= e < first :: !Hit(SHIPPED[e], inFlag, {bit})
    ensures FairAt(SHIPPED, 0, inFlag, {bit}, {first}, d)
  {
    var i :| i in {bit} && i in SHIPPED[first];
    assert {bit} - SHIPPED[first] == {};
    ShippedLeft(bit, first, d);
    EmptyHitsNothing(SHIPPED[d], inFlag);
  }

  lemma {:induction false} ShippedLeft(bit: Bit, first: nat, d: nat)
    requires d <= |SHIPPED| && first < |SHIPPED| && bit in SHIPPED[first]
    ensures Left(SHIPPED, 0, {first}, {bit}, d) == if d <= first then {bit} else {}
    decreases d
  {
    if d > 0 {
      ShippedLeft(bit, first, d - 1);
    }
  }

  // Moving an input stream from the headset to the built-in microphone loses the direction flag in what enters, so
  // the walk serves the headset output, which takes the common bit, and never comes to the microphone.
  lemma ShippedMicrophoneIsMissed()
    ensures Entering({4, IN_BIT}, {2, IN_BIT}) == {2}
    ensures WalkOf(SHIPPED, {2}) == {2} && Meant(SHIPPED, {2}, true) == {4}
    ensures !Fair(SHIPPED, 0, {}, {2}, {4})
  {
    ShippedWalks();
    assert {2} * BIT_IN == {} && {2} - BIT_IN == {2};
    WalkReachesExactly(SHIPPED, {}, {2}, {4});
    assert Has({2}, SHIPPED[4]) && In(SHIPPED[4]);
    assert Meant(SHIPPED, {2}, true) == {4};
  }

  const HEADSET: nat := 2
  const MIC: nat := 4

  // The shipped devices with an input stream s; only "on" of the headset output matters here.
  predicate Shipped(m: Manager, s: nat) {
    && Kinds(m) == SHIPPED && |m.devices| == |SHIPPED| && PATH_ON in m.devices[HEADSET].paths && {2, 4} <= m.inAll
    && OwnPaths(m) && StreamsOk(m) && s < |m.streams| && m.streams[s].input
  }

  lemma ShippedStays(m: Manager, s: nat, op: Op)
    requires Shipped(m, s) && Legal(m, op) && op.s == s
    ensures Shipped(Apply(m, op), s)
  {
    ApplyFrame(m, op);
    ApplyKeepsOwnPaths(m, op);
    ApplyKeepsStreamsOk(m, op);
    assert Kinds(Apply(m, op)) == Kinds(m);
  }

  lemma ShippedKind(m: Manager, s: nat, d: nat)
    requires Shipped(m, s) && d < |m.devices|
    ensures m.devices[d].kind == SHIPPED[d] && !FirstGlobal(m, d)
  {
    assert Kinds(m)[d] == SHIPPED[d];
    assert 1 in SHIPPED[0] && 3 in SHIPPED[1] && 2 in SHIPPED[2] && 4 in SHIPPED[3] && 2 in SHIPPED[4];
  }

  // How headset output and microphone stand: count and users of each.
  predicate Stand(m: Manager, headset: int, headsetUsers: int, mic: int, micUsers: int) {
    && |m.devices| == |SHIPPED|
    && m.devices[HEADSET].useCount == headset && Expected(m, HEADSET) == headsetUsers
    && m.devices[MIC].useCount == mic && Expected(m, MIC) == micUsers
  }

  lemma ShippedOpens(m: Manager, s: nat)
    requires Shipped(m, s) && CanOpen(m, s) && m.streams[s].refCount == 0 && Stand(m, 0, 0, 0, 0)
    ensures Stand(Apply(m, OpenStream(s)), 0, 0, 0, 0)
  {
    ApplyFrame(m, OpenStream(s));
    forall d | d in [HEADSET, MIC]
      ensures Board(Apply(m, OpenStream(s)), d) == Board(m, d) && Expected(Apply(m, OpenStream(s)), d) == Expected(m, d)
    {
      ShippedKind(m, s, d);
      assert 2 in SHIPPED[d];
      OneSwitch(m, OpenStream(s), d);
      ExpectedMoves(m, OpenStream(s), d);
    }
    assert HEADSET in [HEADSET, MIC] && MIC in [HEADSET, MIC];
  }

  lemma ShippedToHeadset(m: Manager, s: nat)
    requires Shipped(m, s) && m.streams[s].refCount > 0 && m.streams[s].current == {} && Stand(m, 0, 0, 0, 0)
    ensures Stand(Apply(m, SetRoute(s, {4, IN_BIT})), 0, 0, 0, 0)
    ensures Apply(m, SetRoute(s, {4, IN_BIT})).streams == m.streams[s := m.streams[s].(current := {4, IN_BIT})]
  {
    var route: Mask := {4, IN_BIT};
    var op := SetRoute(s, route);
    ApplyFrame(m, op);
    ShippedWalks();
    assert Leaving({}, route) == {} && Entering({}, route) == route && WalkOf(SHIPPED, {}) == {};
    assert Masked(m, route) == route by {
      assert 4 in {2, 4};
    }
    forall d | d in [HEADSET, MIC]
      ensures Board(Apply(m, op), d) == Board(m, d) && Expected(Apply(m, op), d) == Expected(m, d)
    {
      ShippedKind(m, s, d);
      OneSwitch(m, op, d);
      NothingHasGlobal({}, {});
      assert !Has(route, SHIPPED[d]);
      ExpectedMoves(m, op, d);
    }
    assert HEADSET in [HEADSET, MIC] && MIC in [HEADSET, MIC];
  }

  lemma ShippedToMic(m: Manager, s: nat)
    requires Shipped(m, s) && m.streams[s].refCount > 0 && m.streams[s].current == {4, IN_BIT} && Stand(m, 0, 0, 0, 0)
    ensures Stand(Apply(m, SetRoute(s, {2, IN_BIT})), 1, 0, 0, 1)
  {
    var route: Mask := {2, IN_BIT};
    var op := SetRoute(s, route);
    ApplyFrame(m, op);
    ShippedWalks();
    assert Leaving({4, IN_BIT}, route) == {4} && Entering({4, IN_BIT}, route) == {2};
    assert Masked(m, route) == route by {
      assert 2 in {2, 4};
    }
    ShippedKind(m, s, HEADSET);
    ShippedKind(m, s, MIC);
    OneSwitch(m, op, HEADSET);
    OneSwitch(m, op, MIC);
    assert !Has({4, IN_BIT}, SHIPPED[HEADSET]) && !Has({4, IN_BIT}, SHIPPED[MIC]);
    assert 2 in route && Has(route, SHIPPED[MIC]) && 2 in SHIPPED[HEADSET];
    ExpectedMoves(m, op, HEADSET);
    ExpectedMoves(m, op, MIC);
  }

  // As a run from the start: the headset output is counted without a user, the microphone has one and is not counted.
  lemma ShippedRunMissesMicrophone(m0: Manager, s: nat) returns (m: Manager)
    requires Fresh(m0) && Shipped(m0, s) && CanOpen(m0, s)
    ensures Runs(m0, [OpenStream(s), SetRoute(s, {4, IN_BIT}), SetRoute(s, {2, IN_BIT})], m)
    ensures Stand(m, 1, 0, 0, 1)
  {
    var toHeadset, toMic := SetRoute(s, {4, IN_BIT}), SetRoute(s, {2, IN_BIT});
    NobodyUses(m0.streams, SHIPPED[HEADSET]);
    NobodyUses(m0.streams, SHIPPED[MIC]);
    ShippedKind(m0, s, HEADSET);
    ShippedKind(m0, s, MIC);
    ShippedOpens(m0, s);
    var m1 := Apply(m0, OpenStream(s));
    ApplyFrame(m0, OpenStream(s));
    ShippedStays(m0, s, OpenStream(s));
    ShippedToHeadset(m1, s);
    var m2 := Apply(m1, toHeadset);
    ShippedStays(m1, s, toHeadset);
    ShippedToMic(m2, s);
    RunsThree(m0, OpenStream(s), toHeadset, toMic);
    m := Apply(m2, toMic);
  }
}

// The same operations as the source runs them, on the manager's own arrays.
module AudioConfigManager {
  import opened RouteBits
  import opened AudioRoute

  class ConfigMgr {
    var devices: seq<Device>
    var streams: seq<Stream>
    var log: seq<Applied>
    const outAll: Mask
    const inAll: Mask

    ghost function Model(): Manager
      reads this
    {
      Manager(devices, streams, log, outAll, inAll)
    }

    constructor (devices: seq<Device>, streams: seq<Stream>, outAll: Mask, inAll: Mask)
      ensures Model() == Manager(devices, streams, [], outAll, inAll)
    {
      this.devices, this.streams, log := devices, streams, [];
      this.outAll, this.inAll := outAll, inAll;
    }

    method ApplyDevicePathL(d: nat, path: int)
      requires d < |devices|
      modifies this`devices, this`log
      ensures Model() == ApplyDevicePath(old(Model()), d, path)
    {
      var dev := devices[d];
      if path == PATH_OFF {
        devices := devices[d := dev.(useCount := dev.useCount - 1)];
        if devices[d].useCount > 0 {
          return;
        }
      } else if path == PATH_ON {
        devices := devices[d := dev.(useCount := dev.useCount + 1)];
        if devices[d].useCount > 1 {
          return;
        }
      }
      log := log + [Applied(d, path)];
      assert devices == old(devices)[d := devices[d]];
    }

    // The single walk that looks for both paths; -1 stands for "not declared".
    static method FindPaths(paths: seq<int>, first: int, second: int) returns (i: int, j: int)
      ensures -1 <= i < |paths| && -1 <= j < |paths|
      ensures i >= 0 <==> first in paths
      ensures i >= 0 ==> paths[i] == first
      ensures j >= 0 <==> second in paths && second != first
      ensures j >= 0 ==> paths[j] == second
    {
      i, j := -1, -1;
      var k := 0;
      while k < |paths|
        invariant 0 <= k <= |paths| && -1 <= i < k && -1 <= j < k
        invariant i >= 0 <==> first in paths[..k]
        invariant i >= 0 ==> paths[i] == first
        invariant j >= 0 <==> second in paths[..k] && second != first
        invariant j >= 0 ==> paths[j] == second
      {
        if paths[k] == first {
          i := k;
          if j >= 0 || first == second {
            break;
          }
        } else if paths[k] == second {
          j := k;
          if i >= 0 {
            break;
          }
        }
        k := k + 1;
      }
    }

    method ApplyPathsByIdL(d: nat, first: int, second: int)
      requires d < |devices|
      modifies this`devices, this`log
      ensures Model() == ApplyPaths(old(Model()), d, first, second)
    {
      var i, j := FindPaths(devices[d].paths, first, second);
      if i >= 0 {
        ApplyDevicePathL(d, first);
      }
      if j >= 0 {
        ApplyDevicePathL(d, second);
      }
    }

    method ApplyPathsToDevicesL(wanted: Mask, first: int, second: int)
      modifies this`devices, this`log
      ensures Model() == ApplyToDevices(old(Model()), wanted, first, second)
    {
      var inFlag := wanted * BIT_IN;
      var mask := wanted - BIT_IN;
      var k := 0;
      while k < |devices| && mask != {}
        invariant 0 <= k <= |devices|
        invariant Walk(Model(), k, inFlag, mask, first, second) == ApplyToDevices(old(Model()), wanted, first, second)
        decreases |devices| - k
      {
        if Hit(devices[k].kind, inFlag, mask) {
          mask := mask - devices[k].kind;
          ApplyPathsByIdL(k, first, second);
        }
        k := k + 1;
      }
    }

    method ApplyPathsToGlobalL(first: int, second: int)
      modifies this`devices, this`log
      ensures Model() == ApplyToGlobal(old(Model()), 0, first, second)
    {
      var k := 0;
      while k < |devices|
        invariant 0 <= k <= |devices| && Model() == old(Model())
        invariant ApplyToGlobal(Model(), k, first, second) == ApplyToGlobal(old(Model()), 0, first, second)
      {
        if devices[k].kind == {} {
          ApplyPathsByIdL(k, first, second);
          return;
        }
        k := k + 1;
      }
    }

    method ApplyRoute(s: nat, wanted: Mask)
      requires s < |streams|
      modifies this`devices, this`streams, this`log
      ensures Model() == Route(old(Model()), s, wanted)
      ensures forall d: nat | d < |old(devices)| ::
        Does(old(Model()), Model(), d, OpSwitches(old(Model()), SetRoute(s, wanted), d))
    {
      var st := streams[s];
      forall d: nat | d < |devices|
        ensures Does(Model(), Route(Model(), s, wanted), d, OpSwitches(Model(), SetRoute(s, wanted), d))
      {
        OpDoes(Model(), SetRoute(s, wanted), d);
      }
      if WrongDirection(st, wanted) {
        return;
      }
      var enabling := Entering(st.current, wanted);
      var disabling := Leaving(st.current, wanted);
      ApplyPathsToDevicesL(disabling, st.disablePath, PATH_OFF);
      ApplyPathsToDevicesL(enabling, PATH_ON, st.enablePath);
      streams := streams[s := st.(current := MaskedRoute(wanted, inAll, outAll))];
    }

    method OpenStreamL(s: nat) returns (ok: bool)
      requires s < |streams|
      modifies this`devices, this`streams, this`log
      ensures ok == CanOpen(old(Model()), s)
      ensures Model() == if ok then Open(old(Model()), s) else old(Model())
    {
      ok := streams[s].refCount < streams[s].maxRefCount;
      if ok {
        var st := streams[s];
        streams := streams[s := st.(refCount := st.refCount + 1)];
        if streams[s].refCount == 1 {
          ApplyPathsToGlobalL(PATH_ON, st.enablePath);
        }
      }
    }

    // get_stream: the last declared stream of the wanted type that is below its maximum is opened.
    method GetStream(kind: int) returns (s: int)
      modifies this`devices, this`streams, this`log
      ensures -1 <= s < |old(streams)|
      ensures s >= 0 ==> old(streams)[s].kind == kind && CanOpen(old(Model()), s) && Model() == Open(old(Model()), s)
      ensures s < 0 ==> Model() == old(Model())
      ensures forall i | 0 <= i < |old(streams)| && s < i && old(streams)[i].kind == kind :: !CanOpen(old(Model()), i)
    {
      s := |streams| - 1;
      while s >= 0
        invariant -1 <= s < |streams| && Model() == old(Model())
        invariant forall i | 0 <= i < |streams| && s < i && streams[i].kind == kind :: !CanOpen(Model(), i)
      {
        if streams[s].kind == kind {
          var ok := OpenStreamL(s);
          if ok {
            return;
          }
        }
        s := s - 1;
      }
    }

    method ReleaseStreamL(s: nat)
      requires s < |streams|
      modifies this`devices, this`streams, this`log
      ensures Model() == Release(old(Model()), s)
    {
      var st := streams[s];
      streams := streams[s := st.(refCount := st.refCount - 1)];
      if streams[s].refCount == 0 {
        ApplyPathsToDevicesL(st.current, PATH_OFF, st.disablePath);
        ApplyPathsToGlobalL(st.disablePath, PATH_OFF);
        streams := streams[s := st.(refCount := 0, current := {})];
      }
    }
  }
}
