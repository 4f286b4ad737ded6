/**
 * The hub's device registry: reconciling the indexed devices with the ports
 * present, and the ledger of serial handles that are opened and closed on the way.
 */
module Registry {
  import opened Prelude

  type Port = string

  // ---- the ledger of handles -----------------------------------------------------

  /** Every action on a handle, at the granularity another thread can observe. */
  datatype Entry =
    | Opened(h: nat)
    | Closed(h: nat)
    | Registered(port: Port, h: nat)
    | Dropped(port: Port, h: nat)

  /** `issued` counts the handles opened so far, numbered in that order; at most one is in flight, neither registered nor closed. */
  datatype Books = Books(issued: nat, inFlight: Option<nat>, held: map<Port, nat>, closed: set<nat>)

  const BLANK: Books := Books(0, None, map[], {})

  predicate Legal(b: Books, e: Entry) {
    match e
    case Opened(h) => b.inFlight.None? && h == b.issued
    case Closed(h) => b.inFlight == Some(h) && h !in b.closed
    case Registered(p, h) => b.inFlight == Some(h) && p !in b.held
    case Dropped(p, h) => b.inFlight.None? && p in b.held && b.held[p] == h
  }

  function Post(b: Books, e: Entry): Books
    requires Legal(b, e)
  {
    match e
    case Opened(h) => b.(issued := b.issued + 1, inFlight := Some(h))
    case Closed(h) => b.(inFlight := None, closed := b.closed + {h})
    case Registered(p, h) => b.(inFlight := None, held := b.held[p := h])
    case Dropped(p, h) => b.(inFlight := Some(h), held := b.held - {p})
  }

  /** The books after a log, if every entry in it was legal. */
  function Play(log: seq<Entry>): Option<Books> {
    if log == [] then Some(BLANK)
    else
      var before := Play(log[..|log| - 1]);
      if before.Some? && Legal(before.value, log[|log| - 1]) then Some(Post(before.value, log[|log| - 1])) else None
  }

  ghost predicate Somewhere(b: Books, h: nat) {
    h in b.closed || b.inFlight == Some(h) || exists p :: p in b.held && b.held[p] == h
  }

  /** Each handle ever opened is in exactly one place: closed, registered under one port, or in flight. */
  ghost predicate Accounted(b: Books) {
    && (forall h: nat :: Somewhere(b, h) <==> h < b.issued)
    && (forall p :: p in b.held ==> b.held[p] !in b.closed && b.inFlight != Some(b.held[p]))
    && (forall p, q :: p in b.held && q in b.held && b.held[p] == b.held[q] ==> p == q)
    && (b.inFlight.Some? ==> b.inFlight.value !in b.closed)
    && b.issued == |b.closed| + |b.held| + if b.inFlight.Some? then 1 else 0
  }

  lemma PostKeepsSomewhere(b: Books, e: Entry, h: nat)
    requires Legal(b, e)
    ensures Somewhere(Post(b, e), h) <==> Somewhere(b, h) || e == Opened(h)
  {
    var b' := Post(b, e);
    match e
    case Opened(_) =>
    case Closed(_) =>
    case Registered(p, g) =>
      assert b'.held[p] == g;
      assert forall q :: q in b.held ==> q in b'.held && b'.held[q] == b.held[q];
    case Dropped(p, g) =>
      assert forall q :: q in b'.held ==> q in b.held && b'.held[q] == b.held[q];
      assert forall q :: q in b.held && q != p ==> q in b'.held;
  }

  lemma PostKeepsAccounted(b: Books, e: Entry)
    requires Accounted(b) && Legal(b, e)
    ensures Accounted(Post(b, e))
  {
    forall h: nat ensures Somewhere(Post(b, e), h) <==> h < Post(b, e).issued {
      PostKeepsSomewhere(b, e, h);
    }
    forall p | p in b.held ensures b.held[p] < b.issued {
      assert Somewhere(b, b.held[p]);
    }
    assert !Somewhere(b, b.issued);
    if e.Dropped? {
      assert b.held.Keys == Post(b, e).held.Keys + {e.port};
    }
  }

  lemma {:induction false} PlayAccounted(log: seq<Entry>)
    requires Play(log).Some?
    ensures Accounted(Play(log).value)
  {
    if log != [] {
      PlayAccounted(log[..|log| - 1]);
      PostKeepsAccounted(Play(log[..|log| - 1]).value, log[|log| - 1]);
    }
  }

  lemma {:induction false} PrefixLegal(log: seq<Entry>, k: nat)
    requires Play(log).Some? && k <= |log|
    ensures Play(log[..k]).Some?
    decreases |log|
  {
    if k == |log| {
      assert log[..k] == log;
    } else {
      PrefixLegal(log[..|log| - 1], k);
      assert log[..|log| - 1][..k] == log[..k];
    }
  }

  /** In every state along a legal log, handles opened minus handles closed are the registered devices plus the one in flight. */
  lemma BalancedThroughout(log: seq<Entry>, k: nat)
    requires Play(log).Some? && k <= |log|
    ensures Play(log[..k]).Some?
    ensures var b := Play(log[..k]).value;
      && b.issued - |b.closed| == |b.held| + (if b.inFlight.Some? then 1 else 0)
      && forall p :: p in b.held ==> b.held[p] !in b.closed
  {
    PrefixLegal(log, k);
    PlayAccounted(log[..k]);
  }

  lemma {:induction false} ClosedSoFar(log: seq<Entry>, i: nat)
    requires Play(log).Some? && i < |log| && log[i].Closed?
    ensures log[i].h in Play(log).value.closed
    decreases |log|
  {
    if i < |log| - 1 {
      ClosedSoFar(log[..|log| - 1], i);
    }
  }

  /** No handle is closed twice. */
  lemma ClosedAtMostOnce(log: seq<Entry>, i: nat, j: nat)
    requires Play(log).Some? && i < j < |log| && log[i].Closed? && log[j].Closed?
    ensures log[i].h != log[j].h
  {
    PrefixLegal(log, j + 1);
    PrefixLegal(log, j);
    assert log[..j + 1][..j] == log[..j];
    ClosedSoFar(log[..j], i);
  }

  // ---- what the ports answer -----------------------------------------------------------

  /** One attempt to identify a port: the open fails, the version is unreadable, or it is a tinySA. */
  datatype Attempt = OpenFails | NotIdentified | Version(info: string)

  /** During one scan: how each attempt on each port goes, and whether the final open succeeds. */
  datatype World = World(attempt: (Port, nat) -> Attempt, reopens: Port -> bool)

  function Identified(w: World, port: Port, attempts: nat, k: nat): Option<string>
    decreases attempts - k
  {
    if k >= attempts then None
    else
      match w.attempt(port, k)
      case OpenFails => None
      case Version(info) => Some(info)
      case NotIdentified => Identified(w, port, attempts, k + 1)
  }

  /** How many handles that identification opens. */
  function Opens(w: World, port: Port, attempts: nat, k: nat): nat
    decreases attempts - k
  {
    if k >= attempts then 0
    else
      match w.attempt(port, k)
      case OpenFails => 0
      case Version(_) => 1
      case NotIdentified => 1 + Opens(w, port, attempts, k + 1)
  }

  /** A port is identified by the first attempt that is not indecisive, and only by a version. */
  lemma {:induction false} IdentifiedIff(w: World, port: Port, attempts: nat, k: nat, info: string)
    requires k <= attempts
    ensures Identified(w, port, attempts, k) == Some(info) <==>
      exists j :: k <= j < attempts && w.attempt(port, j) == Version(info)
                  && forall i :: k <= i < j ==> w.attempt(port, i) == NotIdentified
    decreases attempts - k
  {
    if k < attempts && w.attempt(port, k) == NotIdentified {
      IdentifiedIff(w, port, attempts, k + 1, info);
      if j :| k + 1 <= j < attempts && w.attempt(port, j) == Version(info)
              && forall i :: k + 1 <= i < j ==> w.attempt(port, i) == NotIdentified {
        assert forall i :: k <= i < j ==> w.attempt(port, i) == NotIdentified;
      }
    }
  }

  /** One handle for each indecisive attempt, and one more for the version. */
  lemma {:induction false} OpensUntilDecided(w: World, port: Port, attempts: nat, k: nat, j: nat)
    requires k <= j <= attempts && forall i :: k <= i < j ==> w.attempt(port, i) == NotIdentified
    requires j < attempts ==> w.attempt(port, j) != NotIdentified
    ensures Opens(w, port, attempts, k) == j - k + if j < attempts && w.attempt(port, j).Version? then 1 else 0
    decreases j - k
  {
    if k < j {
      OpensUntilDecided(w, port, attempts, k + 1, j);
    }
  }

  /** The device a probe of `port` ends with, if any. */
  function Found(w: World, port: Port, attempts: nat): Option<string> {
    if w.reopens(port) then Identified(w, port, attempts, 0) else None
  }

  /** A device is found exactly if some attempt identifies the port, after indecisive ones only, and it opens once more. */
  lemma FoundIff(w: World, port: Port, attempts: nat, info: string)
    ensures Found(w, port, attempts) == Some(info) <==>
      && w.reopens(port)
      && exists j: nat :: j < attempts && w.attempt(port, j) == Version(info)
                          && forall i: nat :: i < j ==> w.attempt(port, i) == NotIdentified
  {
    IdentifiedIff(w, port, attempts, 0, info);
  }

  /** The ports among `ports` on which a probe finds a device. */
  function FoundAmong(w: World, ports: set<Port>, attempts: nat): set<Port> {
    set p | p in ports && Found(w, p, attempts).Some?
  }

  // ---- the registry ----------------------------------------------------------------------

  datatype Device = Device(deviceId: Port, info: string, handle: nat)

  function Handles(devices: map<Port, Device>): map<Port, nat> {
    map p | p in devices :: devices[p].handle
  }

  /** The log is legal and agrees with the index; `inFlight` is the handle the scanner is working on. */
  ghost predicate Agree(log: seq<Entry>, devices: map<Port, Device>, issued: nat, inFlight: Option<nat>) {
    && Play(log).Some?
    && Play(log).value.issued == issued
    && Play(log).value.inFlight == inFlight
    && Play(log).value.held == Handles(devices)
  }

  class DeviceRegistry {
    const probeAttempts: nat
    var devices: map<Port, Device>
    var issued: nat
    ghost var log: seq<Entry>

    ghost predicate Agrees(inFlight: Option<nat>)
      reads this
    {
      Agree(log, devices, issued, inFlight)
    }

    ghost predicate Valid()
      reads this
    {
      Agrees(None) && forall p :: p in devices ==> devices[p].deviceId == p
    }

    ghost function ClosedHandles(): set<nat>
      reads this
      requires Play(log).Some?
    {
      Play(log).value.closed
    }

    constructor (probeAttempts: nat)
      ensures Valid() && devices == map[] && log == [] && this.probeAttempts == probeAttempts
    {
      this.probeAttempts := probeAttempts;
      devices, issued, log := map[], 0, [];
    }

    method Open() returns (h: nat)
      requires Agrees(None)
      modifies this`issued, this`log
      ensures h == old(issued) && issued == h + 1 && log == old(log) + [Opened(h)]
      ensures Agrees(Some(h)) && ClosedHandles() == old(ClosedHandles())
    {
      h := issued;
      issued := issued + 1;
      log := log + [Opened(h)];
    }

    method CloseHandle(h: nat)
      requires Agrees(Some(h))
      modifies this`log
      ensures log == old(log) + [Closed(h)] && Agrees(None)
      ensures ClosedHandles() == old(ClosedHandles()) + {h}
    {
      PlayAccounted(log);
      log := log + [Closed(h)];
    }

    /** `discovery.probe`: every handle it opens is closed again, whatever the attempt yields. */
    method Probe(port: Port, w: World) returns (info: Option<string>)
      requires Agrees(None)
      modifies this`issued, this`log
      ensures info == Identified(w, port, probeAttempts, 0)
      ensures issued == old(issued) + Opens(w, port, probeAttempts, 0)
      ensures Agrees(None) && old(log) <= log && old(ClosedHandles()) <= ClosedHandles()
    {
      var k := 0;
      while k < probeAttempts
        invariant 0 <= k <= probeAttempts
        invariant Identified(w, port, probeAttempts, k) == Identified(w, port, probeAttempts, 0)
        invariant issued + Opens(w, port, probeAttempts, k) == old(issued) + Opens(w, port, probeAttempts, 0)
        invariant Agrees(None) && old(log) <= log && old(ClosedHandles()) <= ClosedHandles()
      {
        var answer := w.attempt(port, k);
        if answer.OpenFails? {
          return None;
        }
        var h := Open();
        CloseHandle(h);
        if answer.Version? {
          return Some(answer.info);
        }
        k := k + 1;
      }
      return None;
    }

    /** `_probe_port`: on success one handle is left open, to be registered. */
    method ProbePort(port: Port, w: World) returns (device: Option<Device>)
      requires Agrees(None)
      modifies this`issued, this`log
      ensures device.Some? <==> Found(w, port, probeAttempts).Some?
      ensures device.None? ==> Agrees(None)
      ensures device.Some? ==>
        Agrees(Some(device.value.handle)) && device.value.handle >= old(issued)
        && device.value.deviceId == port && Some(device.value.info) == Found(w, port, probeAttempts)
      ensures issued == old(issued) + Opens(w, port, probeAttempts, 0) + if device.Some? then 1 else 0
      ensures old(log) <= log && old(ClosedHandles()) <= ClosedHandles()
    {
      var info := Probe(port, w);
      if info.None? || !w.reopens(port) {
        return None;
      }
      var h := Open();
      return Some(Device(port, info.value, h));
    }

    method Register(port: Port, device: Device)
      requires Agrees(Some(device.handle)) && port !in devices
      modifies this`devices, this`log
      ensures devices == old(devices)[port := device] && Agrees(None)
      ensures log == old(log) + [Registered(port, device.handle)] && ClosedHandles() == old(ClosedHandles())
    {
      devices := devices[port := device];
      log := log + [Registered(port, device.handle)];
      assert Handles(devices) == Handles(old(devices))[port := device.handle];
    }

    /** `_drop`: take the device out of the index and close its handle. */
    method Drop(port: Port)
      requires Agrees(None)
      modifies this`devices, this`log
      ensures devices == old(devices) - {port} && Agrees(None) && old(log) <= log
      ensures ClosedHandles() == old(ClosedHandles()) + if port in old(devices) then {old(devices)[port].handle} else {}
    {
      if port in devices {
        var h := devices[port].handle;
        devices := devices - {port};
        log := log + [Dropped(port, h)];
        assert Handles(devices) == Handles(old(devices)) - {port};
        CloseHandle(h);
      }
    }

    /** The first half of `scan`: probe each port that is not indexed yet. */
    method AddFound(ports: set<Port>, w: World)
      requires Valid() && ports !! devices.Keys
      modifies this
      ensures Valid() && old(log) <= log && issued >= old(issued)
      ensures devices.Keys == old(devices).Keys + FoundAmong(w, ports, probeAttempts)
      ensures forall p :: p in old(devices) ==> devices[p] == old(devices)[p]
      ensures forall p :: p in devices && p !in old(devices) ==>
        Some(devices[p].info) == Found(w, p, probeAttempts) && devices[p].handle >= old(issued)
    {
      var todo := ports;
      while todo != {}
        invariant Valid() && old(log) <= log && issued >= old(issued)
        invariant todo <= ports
        invariant devices.Keys == old(devices).Keys + FoundAmong(w, ports - todo, probeAttempts)
        invariant forall p :: p in old(devices) ==> devices[p] == old(devices)[p]
        invariant forall p :: p in devices && p !in old(devices) ==>
          Some(devices[p].info) == Found(w, p, probeAttempts) && devices[p].handle >= old(issued)
        decreases todo
      {
        var port :| port in todo;
        var device := ProbePort(port, w);
        if device.Some? {
          if port !in devices {
            Register(port, device.value);
          }
        }
        assert ports - (todo - {port}) == (ports - todo) + {port};
        todo := todo - {port};
      }
    }

    /** The second half: drop each indexed port that is gone. */
    method DropGone(ports: set<Port>)
      requires Valid()
      modifies this`devices, this`log
      ensures Valid() && old(log) <= log
      ensures devices == old(devices) - ports
      ensures forall p :: p in old(devices) && p in ports ==> old(devices)[p].handle in ClosedHandles()
      ensures old(ClosedHandles()) <= ClosedHandles()
    {
      var todo := ports;
      while todo != {}
        invariant Valid() && old(log) <= log && todo <= ports
        invariant devices == old(devices) - (ports - todo)
        invariant forall p :: p in old(devices) && p in ports - todo ==> old(devices)[p].handle in ClosedHandles()
        invariant old(ClosedHandles()) <= ClosedHandles()
        decreases todo
      {
        var port :| port in todo;
        Drop(port);
        assert ports - (todo - {port}) == (ports - todo) + {port};
        todo := todo - {port};
      }
    }

    /**
     * `scan` against one snapshot of the ports.  The index ends up as the
     * surviving devices, untouched, plus the newly found ones on fresh
     * handles; the handles of vanished devices are closed.
     */
    method Scan(present: set<Port>, w: World)
      requires Valid()
      modifies this
      ensures Valid() && old(log) <= log
      ensures devices.Keys == (old(devices).Keys * present) + FoundAmong(w, present - old(devices).Keys, probeAttempts)
      ensures forall p :: p in old(devices) && p in present ==> devices[p] == old(devices)[p]
      ensures forall p :: p in devices && p !in old(devices) ==>
        Some(devices[p].info) == Found(w, p, probeAttempts) && devices[p].handle >= old(issued)
      ensures forall p :: p in old(devices) && p !in present ==> old(devices)[p].handle in ClosedHandles()
    {
      var known := devices.Keys;
      AddFound(present - known, w);
      DropGone(known - present);
    }

    /** `get`: the device with this id, or KeyError. */
    method Get(deviceId: Port) returns (d: Option<Device>)
      requires Valid()
      ensures d == if deviceId in devices then Some(devices[deviceId]) else None
    {
      var todo := devices.Keys;
      while todo != {}
        invariant todo <= devices.Keys
        invariant forall p :: p in devices.Keys - todo ==> devices[p].deviceId != deviceId
        decreases todo
      {
        var port :| port in todo;
        if devices[port].deviceId == deviceId {
          return Some(devices[port]);
        }
        todo := todo - {port};
      }
      return None;
    }

    /** Drops everything: every handle ever opened has then been closed. */
    method Close()
      requires Valid()
      modifies this
      ensures Valid() && old(log) <= log && devices == map[]
      ensures forall h: nat :: h in ClosedHandles() <==> h < issued
    {
      var todo := devices.Keys;
      while todo != {}
        invariant Valid() && old(log) <= log && todo == devices.Keys
        decreases todo
      {
        var port :| port in todo;
        Drop(port);
        todo := todo - {port};
      }
      PlayAccounted(log);
      assert Play(log).value.held == map[];
      assert forall h: nat :: Somewhere(Play(log).value, h) <==> h in ClosedHandles();
    }

    /**
     * The poller's thread followed by shutdown: any number of scans over any
     * snapshots, then `close` once the poller has been joined.  The balance is
     * zero, and it was right in every state on the way.
     */
    method PollThenStop(snapshots: seq<(set<Port>, World)>)
      requires Valid()
      modifies this
      ensures Valid() && devices == map[] && old(log) <= log
      ensures |ClosedHandles()| == issued
      ensures forall k: nat :: k <= |log| ==> Play(log[..k]).Some? && Accounted(Play(log[..k]).value)
    {
      for i := 0 to |snapshots|
        invariant Valid() && old(log) <= log
      {
        Scan(snapshots[i].0, snapshots[i].1);
      }
      Close();
      PlayAccounted(log);
      forall k: nat | k <= |log| ensures Play(log[..k]).Some? && Accounted(Play(log[..k]).value) {
        PrefixLegal(log, k);
        PlayAccounted(log[..k]);
      }
    }
  }
}
