/**
 * The hub's single controller session: admission, takeover and cleanup,
 * first as one object under its lock, then with one serve thread per connection.
 */
module Sessions {
  import opened Prelude

  // ---- the session manager's critical sections, on values ----------------------

  datatype Session<C> = Session(connection: C, peer: string, transport: string, selectedDevice: Option<string>)

  datatype Manager<C> = Manager(current: Option<Session<C>>, takeoverAllowed: bool)

  predicate Contested<C>(m: Manager<C>) {
    m.current.Some?
  }

  predicate AdmitSucceeds<C>(m: Manager<C>, force: bool) {
    !Contested(m) || force || m.takeoverAllowed
  }

  /** The state after `admit`, which leaves everything alone when it raises SessionBusy. */
  function Admitted<C>(m: Manager<C>, connection: C, peer: string, transport: string, force: bool): Manager<C> {
    if !AdmitSucceeds(m, force) then m
    else Manager(Some(Session(connection, peer, transport, None)), m.takeoverAllowed && !Contested(m))
  }

  function Disconnected<C>(m: Manager<C>): Manager<C> {
    m.(current := None)
  }

  function Selected<C>(m: Manager<C>, device: string): Manager<C> {
    if m.current.None? then m
    else m.(current := Some(m.current.value.(selectedDevice := Some(device))))
  }

  function TakeoverGranted<C>(m: Manager<C>): Manager<C> {
    m.(takeoverAllowed := true)
  }

  // ---- the object itself ---------------------------------------------------------

  class Connection {
    var open: bool

    constructor ()
      ensures open
    {
      open := true;
    }

    method Close()
      modifies this
      ensures !open
    {
      open := false;
    }
  }

  datatype Outcome = Done | SessionBusy

  class SessionManager {
    var current: Option<Session<Connection>>
    var takeoverAllowed: bool

    function View(): Manager<Connection>
      reads this
    {
      Manager(current, takeoverAllowed)
    }

    /** The connection an eviction would close. */
    function Incumbent(): set<Connection>
      reads this
    {
      if current.Some? then {current.value.connection} else {}
    }

    constructor ()
      ensures View() == Manager(None, false)
    {
      current, takeoverAllowed := None, false;
    }

    method Admit(connection: Connection, peer: string, transport: string, force: bool) returns (r: Outcome)
      modifies this, Incumbent()
      ensures r == Done <==> AdmitSucceeds(old(View()), force)
      ensures View() == Admitted(old(View()), connection, peer, transport, force)
      ensures r == Done ==> forall c :: c in old(Incumbent()) ==> !c.open
      ensures r == SessionBusy ==> forall c :: c in old(Incumbent()) ==> c.open == old(c.open)
    {
      if current.Some? {
        if !force && !takeoverAllowed {
          return SessionBusy;
        }
        Evict(true);
        takeoverAllowed := false;
      }
      current := Some(Session(connection, peer, transport, None));
      return Done;
    }

    method Disconnect()
      modifies this, Incumbent()
      ensures View() == Disconnected(old(View()))
      ensures forall c :: c in old(Incumbent()) ==> c.open == old(c.open)
    {
      Evict(false);
    }

    method SelectDevice(device: string) returns (r: Outcome)
      modifies this`current
      ensures r == Done <==> old(current).Some?
      ensures View() == Selected(old(View()), device)
    {
      match current {
        case None => return SessionBusy;
        case Some(session) =>
          current := Some(session.(selectedDevice := Some(device)));
          return Done;
      }
    }

    method AllowTakeover()
      modifies this`takeoverAllowed
      ensures View() == TakeoverGranted(old(View()))
    {
      takeoverAllowed := true;
    }

    method Evict(close: bool)
      modifies this`current, Incumbent()
      ensures current == None
      ensures forall c :: c in old(Incumbent()) ==> c.open == (old(c.open) && !close)
    {
      if current.Some? {
        if close {
          current.value.connection.Close();
        }
        current := None;
      }
    }
  }

  // ---- takeover accounting over any history ---------------------------------------

  datatype Op = Admit(connection: nat, peer: string, transport: string, force: bool) | Disconnect | Select(device: string) | AllowTakeover

  function After(m: Manager<nat>, op: Op): Manager<nat> {
    match op
    case Admit(c, peer, transport, force) => Admitted(m, c, peer, transport, force)
    case Disconnect => Disconnected(m)
    case Select(d) => Selected(m, d)
    case AllowTakeover => TakeoverGranted(m)
  }

  /** The connections an operation closes: those `_evict_locked` is asked to close. */
  function Closes(m: Manager<nat>, op: Op): set<nat> {
    if op.Admit? && Contested(m) && AdmitSucceeds(m, op.force) then {m.current.value.connection} else {}
  }

  predicate Evicts(m: Manager<nat>, op: Op) {
    op.Admit? && Contested(m) && AdmitSucceeds(m, op.force)
  }

  predicate UnforcedEviction(m: Manager<nat>, op: Op) {
    Evicts(m, op) && !op.force
  }

  const FRESH: Manager<nat> := Manager(None, false)

  function State(ops: seq<Op>): Manager<nat> {
    if ops == [] then FRESH else After(State(ops[..|ops| - 1]), ops[|ops| - 1])
  }

  function Takeovers(ops: seq<Op>): nat {
    if ops == [] then 0
    else
      var init, last := ops[..|ops| - 1], ops[|ops| - 1];
      Takeovers(init) + if UnforcedEviction(State(init), last) then 1 else 0
  }

  function Grants(ops: seq<Op>): nat {
    if ops == [] then 0
    else Grants(ops[..|ops| - 1]) + if ops[|ops| - 1].AllowTakeover? then 1 else 0
  }

  /** Unforced takeovers never outnumber grants, and an unused grant is still one in hand. */
  lemma {:induction false} TakeoversNeedGrants(ops: seq<Op>)
    ensures Takeovers(ops) + (if State(ops).takeoverAllowed then 1 else 0) <= Grants(ops)
  {
    if ops != [] {
      TakeoversNeedGrants(ops[..|ops| - 1]);
    }
  }

  /** If takeover is allowed now and was not after `i` operations, it was granted in between. */
  lemma {:induction false} GrantedInBetween(ops: seq<Op>, i: nat)
    requires i < |ops| && !State(ops[..i]).takeoverAllowed && State(ops).takeoverAllowed
    ensures exists k :: i <= k < |ops| && ops[k].AllowTakeover?
    decreases |ops|
  {
    var init := ops[..|ops| - 1];
    assert init[..i] == ops[..i];
    assert init[..|init|] == init;
    if !ops[|ops| - 1].AllowTakeover? {
      GrantedInBetween(init, i);
      var k :| i <= k < |init| && init[k].AllowTakeover?;
      assert ops[k].AllowTakeover?;
    }
  }

  /** Between any two unforced takeovers somebody granted one. */
  lemma GrantBetweenTakeovers(ops: seq<Op>, i: nat, j: nat)
    requires i < j < |ops|
    requires UnforcedEviction(State(ops[..i]), ops[i]) && UnforcedEviction(State(ops[..j]), ops[j])
    ensures exists k :: i < k < j && ops[k].AllowTakeover?
  {
    assert ops[..i + 1][..i] == ops[..i];
    assert !State(ops[..i + 1]).takeoverAllowed;
    assert ops[..j][..i + 1] == ops[..i + 1];
    assert i + 1 != j;
    GrantedInBetween(ops[..j], i + 1);
    var k :| i + 1 <= k < j && ops[..j][k].AllowTakeover?;
    assert ops[k].AllowTakeover?;
  }

  predicate ContestedAdmission(ops: seq<Op>, j: nat)
    requires j < |ops|
  {
    ops[j].Admit? && Contested(State(ops[..j]))
  }

  /** After grant `k` nobody has tried a contested admission. */
  ghost predicate Unused(ops: seq<Op>, k: nat)
    requires k < |ops|
  {
    ops[k].AllowTakeover? && forall j :: k < j < |ops| ==> !ContestedAdmission(ops, j)
  }

  /**
   * Read off the history: takeover stands granted exactly if some grant has
   * met no contested admission since.  Disconnects, selections and uncontested
   * admissions in between leave it standing.
   */
  lemma {:induction false} GrantInHand(ops: seq<Op>)
    ensures State(ops).takeoverAllowed <==> exists k: nat :: k < |ops| && Unused(ops, k)
  {
    if ops != [] {
      var n := |ops| - 1;
      var init := ops[..n];
      GrantInHand(init);
      forall j: nat | j < n ensures ContestedAdmission(ops, j) == ContestedAdmission(init, j) {
        assert init[..j] == ops[..j];
      }
      if ops[n].AllowTakeover? {
        assert Unused(ops, n);
      } else if ContestedAdmission(ops, n) {
        assert !State(ops).takeoverAllowed;
      } else {
        forall k: nat | k < n ensures Unused(ops, k) == Unused(init, k) {
        }
      }
    }
  }

  function Count(ops: seq<Op>, counted: (Manager<nat>, Op) -> bool): nat {
    if ops == [] then 0
    else Count(ops[..|ops| - 1], counted) + if counted(State(ops[..|ops| - 1]), ops[|ops| - 1]) then 1 else 0
  }

  const ADMITS: (Manager<nat>, Op) -> bool := (m: Manager<nat>, op: Op) => op.Admit? && AdmitSucceeds(m, op.force)
  const EVICTS: (Manager<nat>, Op) -> bool := (m: Manager<nat>, op: Op) => Evicts(m, op)
  const ENDS: (Manager<nat>, Op) -> bool := (m: Manager<nat>, op: Op) => op.Disconnect? && Contested(m)

  /** Every session ever admitted was evicted once, ended once, or is the current one. */
  lemma {:induction false} SessionBalance(ops: seq<Op>)
    ensures Count(ops, ADMITS) == Count(ops, EVICTS) + Count(ops, ENDS) + if State(ops).current.Some? then 1 else 0
  {
    if ops != [] {
      SessionBalance(ops[..|ops| - 1]);
    }
  }

  // ---- which connections the manager closes ----------------------------------------

  predicate Succeeds(ops: seq<Op>, k: nat)
    requires k < |ops|
  {
    ops[k].Admit? && AdmitSucceeds(State(ops[..k]), ops[k].force)
  }

  /** Admission `k` succeeded, and since then nobody else was admitted and nobody disconnected. */
  ghost predicate Reigns(ops: seq<Op>, k: nat)
    requires k < |ops|
  {
    Succeeds(ops, k) && forall j :: k < j < |ops| ==> !Succeeds(ops, j) && !ops[j].Disconnect?
  }

  /** The current session, read off the history. */
  lemma {:induction false} CurrentReigns(ops: seq<Op>)
    ensures State(ops).current.Some? <==> exists k: nat :: k < |ops| && Reigns(ops, k)
    ensures forall k: nat :: k < |ops| && Reigns(ops, k) ==>
      State(ops).current.Some? && State(ops).current.value.connection == ops[k].connection
  {
    if ops != [] {
      var n := |ops| - 1;
      var init := ops[..n];
      CurrentReigns(init);
      forall k: nat | k < n ensures Reigns(ops, k) <==> Reigns(init, k) && !Succeeds(ops, n) && !ops[n].Disconnect? {
        ReignGoesOn(ops, k);
      }
      if Succeeds(ops, n) {
        assert Reigns(ops, n);
      }
    }
  }

  lemma ReignGoesOn(ops: seq<Op>, k: nat)
    requires k < |ops| - 1
    ensures var n := |ops| - 1;
      Reigns(ops, k) <==> Reigns(ops[..n], k) && !Succeeds(ops, n) && !ops[n].Disconnect?
  {
    var init := ops[..|ops| - 1];
    forall j: nat | j < |init| ensures Succeeds(ops, j) == Succeeds(init, j) {
      assert init[..j] == ops[..j];
    }
  }

  /** The last device selected since admission `k`; None if there was no selection. */
  ghost predicate LastSelected(ops: seq<Op>, k: nat, device: Option<string>)
    requires k < |ops|
  {
    match device
    case None => forall j :: k < j < |ops| ==> !ops[j].Select?
    case Some(d) => exists j :: k < j < |ops| && ops[j] == Select(d) && forall i :: j < i < |ops| ==> !ops[i].Select?
  }

  /**
   * What the current session holds, read off the history: the peer and
   * transport it was admitted with, and the device last selected since then.
   * A takeover starts without a device.
   */
  lemma {:induction false} SessionHolds(ops: seq<Op>, k: nat)
    requires k < |ops| && Reigns(ops, k)
    ensures State(ops).current.Some?
    ensures var s := State(ops).current.value;
      && s.connection == ops[k].connection && s.peer == ops[k].peer && s.transport == ops[k].transport
      && LastSelected(ops, k, s.selectedDevice)
  {
    var n := |ops| - 1;
    var init := ops[..n];
    if k < n {
      ReignGoesOn(ops, k);
      SessionHolds(init, k);
      LastSelectedGoesOn(ops, k, State(init).current.value.selectedDevice);
    }
  }

  lemma LastSelectedGoesOn(ops: seq<Op>, k: nat, before: Option<string>)
    requires k < |ops| - 1 && LastSelected(ops[..|ops| - 1], k, before)
    ensures var last := ops[|ops| - 1];
      LastSelected(ops, k, if last.Select? then Some(last.device) else before)
  {
    var n := |ops| - 1;
    var init := ops[..n];
    if !ops[n].Select? && before.Some? {
      var j :| k < j < n && init[j] == Select(before.value) && forall i :: j < i < n ==> !init[i].Select?;
      assert ops[j] == Select(before.value) && forall i :: j < i < |ops| ==> !ops[i].Select?;
    }
  }

  /** An admission succeeds exactly if it is forced, or nobody reigns, or a grant is unused. */
  lemma AdmissionSucceedsIff(ops: seq<Op>, n: nat)
    requires n < |ops| && ops[n].Admit?
    ensures Succeeds(ops, n) <==>
      || ops[n].force
      || !(exists k: nat :: k < n && Reigns(ops[..n], k))
      || (exists k: nat :: k < n && Unused(ops[..n], k))
  {
    CurrentReigns(ops[..n]);
    GrantInHand(ops[..n]);
  }

  /** A connection is closed exactly when an admission succeeds while its own admission still reigns. */
  lemma ClosedWhenEvicted(ops: seq<Op>, j: nat, c: nat)
    requires j < |ops|
    ensures c in Closes(State(ops[..j]), ops[j])
      <==> Succeeds(ops, j) && exists k: nat :: k < j && Reigns(ops[..j], k) && ops[k].connection == c
  {
    CurrentReigns(ops[..j]);
  }

  /** How often the manager has closed connection `c`. */
  function Closings(ops: seq<Op>, c: nat): nat {
    if ops == [] then 0
    else
      var init, last := ops[..|ops| - 1], ops[|ops| - 1];
      Closings(init, c) + if c in Closes(State(init), last) then 1 else 0
  }

  function IsCurrent(m: Manager<nat>, c: nat): bool {
    m.current.Some? && m.current.value.connection == c
  }

  /** How often `c` was admitted, and how often a disconnect ended a session of `c`. */
  function Admissions(ops: seq<Op>, c: nat): nat {
    if ops == [] then 0
    else Admissions(ops[..|ops| - 1], c) + if Succeeds(ops, |ops| - 1) && ops[|ops| - 1].connection == c then 1 else 0
  }

  function Disconnections(ops: seq<Op>, c: nat): nat {
    if ops == [] then 0
    else
      Disconnections(ops[..|ops| - 1], c)
      + if ops[|ops| - 1].Disconnect? && IsCurrent(State(ops[..|ops| - 1]), c) then 1 else 0
  }

  /** Connection by connection: each admission was closed once by a takeover, ended without closing by a disconnect, or is current. */
  lemma {:induction false} ConnectionBalance(ops: seq<Op>, c: nat)
    ensures Admissions(ops, c) == Closings(ops, c) + Disconnections(ops, c) + if IsCurrent(State(ops), c) then 1 else 0
  {
    if ops != [] {
      ConnectionBalance(ops[..|ops| - 1], c);
    }
  }

  // ---- one serve thread per connection, at lock granularity -------------------------

  /** Where a serve thread stands in `_serve`. */
  datatype Pc =
    | Arriving                // accepted, `admit` not yet called
    | Selecting               // admitted; device auto-selection still to come
    | Serving                 // in the request loop
    | Checking                // the loop has ended; about to read `current`
    | Clearing(seen: nat)     // found its own session; about to call `disconnect`
    | Refusing                // caught SessionBusy; about to send the id-0 response
    | Closing                 // about to close its connection
    | Ended
    | Died                    // the id-0 response could not be sent: the exception ends the thread there

  /** `epoch` counts successful admissions, `admittedAt` the epoch of each; both are history. */
  datatype Hub = Hub(sessions: Manager<nat>, threads: map<nat, Pc>, closed: set<nat>, epoch: nat, admittedAt: map<nat, nat>)

  const QUIET_HUB: Hub := Hub(FRESH, map[], {}, 0, map[])

  datatype Action =
    | Accept(c: nat)
    | TryAdmit(c: nat, peer: string, transport: string)
    | AddressFails(c: nat)               // getpeername raises OSError
    | AutoSelect(c: nat, only: Option<string>)    // the only free device, if there is exactly one
    | RpcDisconnect(c: nat)
    | RpcAllowTakeover(c: nat)
    | RpcSelect(c: nat, device: string)
    | LeaveLoop(c: nat)                  // peer gone, evicted, or hub stopping
    | Check(c: nat)
    | Clear(c: nat)
    | Refuse(c: nat)
    | RefusalFails(c: nat)               // the peer is gone already
    | CloseConnection(c: nat)

  predicate At(h: Hub, c: nat, pc: Pc) {
    c in h.threads && h.threads[c] == pc
  }

  predicate Enabled(h: Hub, a: Action) {
    match a
    case Accept(c) => c !in h.threads
    case TryAdmit(c, _, _) => At(h, c, Arriving)
    case AddressFails(c) => At(h, c, Arriving)
    case AutoSelect(c, _) => At(h, c, Selecting)
    case RpcDisconnect(c) => At(h, c, Serving)
    case RpcAllowTakeover(c) => At(h, c, Serving)
    case RpcSelect(c, _) => At(h, c, Serving)
    case LeaveLoop(c) => At(h, c, Serving)
    case Check(c) => At(h, c, Checking)
    case Clear(c) => c in h.threads && h.threads[c].Clearing?
    case Refuse(c) => At(h, c, Refusing)
    case RefusalFails(c) => At(h, c, Refusing)
    case CloseConnection(c) => At(h, c, Closing)
  }

  function Move(h: Hub, c: nat, pc: Pc): Hub {
    h.(threads := h.threads[c := pc])
  }

  function Act(h: Hub, a: Action): Hub
    requires Enabled(h, a)
  {
    match a
    case Accept(c) => Move(h, c, Arriving)
    case TryAdmit(c, peer, transport) =>
      if AdmitSucceeds(h.sessions, false) then
        Move(h, c, Selecting).(sessions := Admitted(h.sessions, c, peer, transport, false),
                               closed := h.closed + Closes(h.sessions, Admit(c, peer, transport, false)),
                               epoch := h.epoch + 1, admittedAt := h.admittedAt[c := h.epoch + 1])
      else Move(h, c, Refusing)
    case AddressFails(c) => Move(h, c, Closing)
    case AutoSelect(c, None) => Move(h, c, Serving)
    case AutoSelect(c, Some(device)) =>
      // `select_device` raises SessionBusy if there is no session any more
      if h.sessions.current.None? then Move(h, c, Refusing)
      else Move(h, c, Serving).(sessions := Selected(h.sessions, device))
    case RpcDisconnect(c) => h.(sessions := Disconnected(h.sessions))
    case RpcAllowTakeover(c) => h.(sessions := TakeoverGranted(h.sessions))
    case RpcSelect(c, device) => h.(sessions := Selected(h.sessions, device))
    case LeaveLoop(c) => Move(h, c, Checking)
    case Check(c) =>
      if h.sessions.current.Some? && h.sessions.current.value.connection == c then Move(h, c, Clearing(h.epoch))
      else Move(h, c, Closing)
    case Clear(c) => Move(h, c, Closing).(sessions := Disconnected(h.sessions))
    case Refuse(c) => Move(h, c, Closing)
    case RefusalFails(c) => Move(h, c, Died)
    case CloseConnection(c) => Move(h, c, Ended).(closed := h.closed + {c})
  }

  ghost predicate IsRun(run: seq<Hub>, actions: seq<Action>) {
    && |run| == |actions| + 1 && run[0] == QUIET_HUB
    && forall i :: 0 <= i < |actions| ==> Enabled(run[i], actions[i]) && run[i + 1] == Act(run[i], actions[i])
  }

  /** What an action does to the session manager, if anything. */
  function OpOf(h: Hub, a: Action): Option<Op> {
    match a
    case TryAdmit(c, peer, transport) => Some(Op.Admit(c, peer, transport, false))
    case AutoSelect(_, Some(device)) => Some(Op.Select(device))
    case RpcDisconnect(_) => Some(Op.Disconnect)
    case RpcAllowTakeover(_) => Some(Op.AllowTakeover)
    case RpcSelect(_, device) => Some(Op.Select(device))
    case Clear(_) => Some(Op.Disconnect)
    case _ => None
  }

  function History(run: seq<Hub>, actions: seq<Action>, n: nat): seq<Op>
    requires n <= |actions| && n <= |run|
  {
    if n == 0 then []
    else
      match OpOf(run[n - 1], actions[n - 1])
      case None => History(run, actions, n - 1)
      case Some(op) => History(run, actions, n - 1) + [op]
  }

  /** The threads together are one history of the session manager, so what holds of histories holds of them. */
  lemma {:induction false} HubHasHistory(run: seq<Hub>, actions: seq<Action>, i: nat)
    requires IsRun(run, actions) && i < |run|
    ensures run[i].sessions == State(History(run, actions, i))
  {
    if i > 0 {
      HubHasHistory(run, actions, i - 1);
      ActIsOp(run[i - 1], actions[i - 1]);
    }
  }

  lemma ActIsOp(h: Hub, a: Action)
    requires Enabled(h, a)
    ensures Act(h, a).sessions == match OpOf(h, a) case None => h.sessions case Some(op) => After(h.sessions, op)
  {
  }

  /** The thread has not yet passed the point where it gives its session up. */
  predicate Holding(pc: Pc) {
    pc.Selecting? || pc.Serving? || pc.Checking? || pc.Clearing?
  }

  predicate Owner(h: Hub, c: nat) {
    h.sessions.current.Some? && h.sessions.current.value.connection == c
  }

  predicate ThreadOk(h: Hub, c: nat)
    requires c in h.threads
  {
    && (c in h.admittedAt ==> h.admittedAt[c] <= h.epoch && h.threads[c] != Arriving)
    && (Owner(h, c) ==> Holding(h.threads[c]) && c in h.admittedAt && h.admittedAt[c] == h.epoch)
    && (h.threads[c].Clearing? ==>
          c in h.admittedAt && h.threads[c].seen == h.admittedAt[c])
    && (c in h.admittedAt && h.admittedAt[c] == h.epoch && h.sessions.current.Some? ==> Owner(h, c))
    && (h.threads[c].Ended? ==> c in h.closed)
    && (Holding(h.threads[c]) ==> c in h.admittedAt)
  }

  ghost predicate Inv(h: Hub) {
    && (h.sessions.current.Some? ==> h.sessions.current.value.connection in h.threads)
    && h.admittedAt.Keys <= h.threads.Keys
    && forall c :: c in h.threads ==> ThreadOk(h, c)
  }

  lemma ActKeepsThread(h: Hub, a: Action, c: nat)
    requires Inv(h) && Enabled(h, a) && c in Act(h, a).threads
    ensures ThreadOk(Act(h, a), c)
  {
    if c in h.threads {
      assert ThreadOk(h, c);
    }
    if a.c in h.threads {
      assert ThreadOk(h, a.c);
    }
    if h.sessions.current.Some? {
      assert ThreadOk(h, h.sessions.current.value.connection);
    }
  }

  lemma ActKeepsInv(h: Hub, a: Action)
    requires Inv(h) && Enabled(h, a)
    ensures Inv(Act(h, a))
  {
    forall c | c in Act(h, a).threads ensures ThreadOk(Act(h, a), c) {
      ActKeepsThread(h, a, c);
    }
  }

  lemma {:induction false} RunInv(run: seq<Hub>, actions: seq<Action>, i: nat)
    requires IsRun(run, actions) && i < |run|
    ensures Inv(run[i])
  {
    if i > 0 {
      RunInv(run, actions, i - 1);
      ActKeepsInv(run[i - 1], actions[i - 1]);
    }
  }

  /**
   * The hub is never wedged: in every interleaving the current session belongs
   * to a connection whose serve thread is still able to give it up, so once
   * every thread is past that point the session is free and the next
   * controller is admitted without a takeover.
   */
  lemma NeverWedged(run: seq<Hub>, actions: seq<Action>, i: nat)
    requires IsRun(run, actions) && i < |run|
    ensures var h := run[i];
      && (h.sessions.current.Some? ==>
            var c := h.sessions.current.value.connection; c in h.threads && Holding(h.threads[c]))
      && ((forall c :: c in h.threads ==> !Holding(h.threads[c])) ==> AdmitSucceeds(h.sessions, false) && !Contested(h.sessions))
    ensures forall c :: c in run[i].threads && run[i].threads[c].Ended? ==> c in run[i].closed
  {
    RunInv(run, actions, i);
    var h := run[i];
    if h.sessions.current.Some? {
      assert ThreadOk(h, h.sessions.current.value.connection);
    }
    forall c | c in h.threads && h.threads[c].Ended? ensures c in h.closed {
      assert ThreadOk(h, c);
    }
  }

  /** An upper bound on the moves a serve thread has left. */
  function Ahead(pc: Pc): nat {
    match pc
    case Arriving => 6
    case Selecting => 5
    case Serving => 4
    case Checking => 3
    case Clearing(_) => 2
    case Refusing => 2
    case Closing => 1
    case Ended => 0
    case Died => 0
  }

  /** A thread's own progress, as opposed to a new connection or a request it serves. */
  predicate Moves(a: Action) {
    !a.Accept? && !a.RpcDisconnect? && !a.RpcAllowTakeover? && !a.RpcSelect?
  }

  /**
   * No serve thread gets stuck or goes round in circles: as long as it has
   * neither ended nor died it can move, and each move uses up one of the few
   * it has, whatever the others do in between.
   */
  lemma ThreadsRunOut(run: seq<Hub>, actions: seq<Action>, i: nat, c: nat)
    requires IsRun(run, actions) && i < |run| && c in run[i].threads
    ensures (exists a :: Moves(a) && a.c == c && Enabled(run[i], a)) <==> !run[i].threads[c].Ended? && !run[i].threads[c].Died?
    ensures i < |actions| ==> c in run[i + 1].threads
    ensures i < |actions| && actions[i].c != c ==> run[i + 1].threads[c] == run[i].threads[c]
    ensures i < |actions| && actions[i].c == c && Moves(actions[i]) ==>
      Ahead(run[i + 1].threads[c]) < Ahead(run[i].threads[c])
  {
    if i < |actions| {
      assert run[i + 1] == Act(run[i], actions[i]);
    }
    if !run[i].threads[c].Ended? && !run[i].threads[c].Died? {
      var a := OwnMove(run[i].threads[c], c);
      assert Moves(a) && a.c == c && Enabled(run[i], a);
    }
  }

  function OwnMove(pc: Pc, c: nat): (a: Action)
    requires !pc.Ended? && !pc.Died?
    ensures a.c == c && Moves(a)
    ensures forall h: Hub :: At(h, c, pc) ==> Enabled(h, a)
  {
    match pc
    case Arriving => AddressFails(c)
    case Selecting => AutoSelect(c, None)
    case Serving => LeaveLoop(c)
    case Checking => Check(c)
    case Clearing(_) => Clear(c)
    case Refusing => Refuse(c)
    case Closing => CloseConnection(c)
  }

  /** Some admission before step `i` took the session from `c`. */
  ghost predicate EverEvicted(run: seq<Hub>, actions: seq<Action>, i: nat, c: nat)
    requires IsRun(run, actions) && i < |run|
  {
    exists k :: 0 <= k < i && actions[k].TryAdmit? && AdmitSucceeds(run[k].sessions, false) && Owner(run[k], c)
  }

  lemma {:induction false} ClosedIffEndedOrEvicted(run: seq<Hub>, actions: seq<Action>, i: nat, c: nat)
    requires IsRun(run, actions) && i < |run|
    ensures c in run[i].closed <==> At(run[i], c, Ended) || EverEvicted(run, actions, i, c)
  {
    if i > 0 {
      ClosedIffEndedOrEvicted(run, actions, i - 1, c);
      var h, a := run[i - 1], actions[i - 1];
      assert run[i] == Act(h, a);
      assert EverEvicted(run, actions, i, c)
        <==> EverEvicted(run, actions, i - 1, c) || (a.TryAdmit? && AdmitSucceeds(h.sessions, false) && Owner(h, c));
    }
  }

  /** A connection whose thread is gone is still open exactly if the thread died refusing it and no takeover had closed it. */
  lemma GoneThreadLeavesOpen(run: seq<Hub>, actions: seq<Action>, i: nat, c: nat)
    requires IsRun(run, actions) && i < |run| && (At(run[i], c, Ended) || At(run[i], c, Died))
    ensures c !in run[i].closed <==> At(run[i], c, Died) && !EverEvicted(run, actions, i, c)
  {
    ClosedIffEndedOrEvicted(run, actions, i, c);
  }

  /**
   * A `disconnect` RPC is not checked for the session it ends either: it ends
   * somebody else's exactly if another controller has been admitted since.
   */
  lemma DisconnectEndsOwnSession(run: seq<Hub>, actions: seq<Action>, i: nat, c: nat)
    requires IsRun(run, actions) && i < |actions| && actions[i] == RpcDisconnect(c)
    requires run[i].sessions.current.Some?
    ensures run[i + 1].sessions.current.None? && c in run[i].admittedAt
    ensures !Owner(run[i], c) <==> run[i].admittedAt[c] != run[i].epoch
  {
    RunInv(run, actions, i);
    assert ThreadOk(run[i], c);
    assert run[i + 1] == Act(run[i], actions[i]);
  }

  /**
   * Automatic selection goes to whatever session is current: the thread is
   * served if there is one, and it is somebody else's exactly if another
   * controller has been admitted since.
   */
  lemma AutoSelectHitsOwnSession(run: seq<Hub>, actions: seq<Action>, i: nat, c: nat, device: string)
    requires IsRun(run, actions) && i < |actions| && actions[i] == AutoSelect(c, Some(device))
    ensures At(run[i + 1], c, Serving) <==> run[i].sessions.current.Some?
    ensures At(run[i + 1], c, Refusing) <==> run[i].sessions.current.None?
    ensures run[i].sessions.current.Some? ==>
      && run[i + 1].sessions.current.Some? && run[i + 1].sessions.current.value.selectedDevice == Some(device)
      && c in run[i].admittedAt && (!Owner(run[i], c) <==> run[i].admittedAt[c] != run[i].epoch)
  {
    RunInv(run, actions, i);
    assert ThreadOk(run[i], c);
    assert run[i + 1] == Act(run[i], actions[i]);
  }

  /** Only a busy session, or one gone before a device could be selected, gets a connection the id-0 response. */
  lemma RefusedWhen(run: seq<Hub>, actions: seq<Action>, i: nat, c: nat)
    requires IsRun(run, actions) && i < |actions| && !At(run[i], c, Refusing)
    ensures At(run[i + 1], c, Refusing) <==>
      || (actions[i].TryAdmit? && actions[i].c == c
          && run[i].sessions.current.Some? && !run[i].sessions.takeoverAllowed)
      || (actions[i].AutoSelect? && actions[i].c == c && actions[i].only.Some? && run[i].sessions.current.None?)
  {
    assert run[i + 1] == Act(run[i], actions[i]);
  }

  /** A `disconnect` issued by the cleanup of `c` throws out somebody else's session. */
  predicate ClearsForeignSession(h: Hub, c: nat) {
    h.sessions.current.Some? && !Owner(h, c)
  }

  /**
   * The cleanup checks and acts in two lock acquisitions.  When it acts on a
   * live session, that session is its own exactly if no admission has
   * succeeded since the check.
   */
  lemma CleanupClearsOwnSession(run: seq<Hub>, actions: seq<Action>, i: nat, c: nat)
    requires IsRun(run, actions) && i < |actions| && actions[i] == Clear(c)
    requires run[i].sessions.current.Some?
    ensures ClearsForeignSession(run[i], c) <==> run[i].epoch != run[i].threads[c].seen
  {
    RunInv(run, actions, i);
    assert ThreadOk(run[i], c);
  }

  /** `seen` is the epoch at which the thread made its check. */
  lemma {:induction false} SeenIsEpochOfCheck(run: seq<Hub>, actions: seq<Action>, i: nat, c: nat)
    requires IsRun(run, actions) && i < |run| && c in run[i].threads && run[i].threads[c].Clearing?
    ensures exists k :: 0 <= k < i && actions[k] == Check(c) && run[k].epoch == run[i].threads[c].seen
                       && forall j :: k < j <= i ==> At(run[j], c, run[i].threads[c])
  {
    var h := run[i - 1];
    if At(h, c, run[i].threads[c]) {
      SeenIsEpochOfCheck(run, actions, i - 1, c);
      var k :| 0 <= k < i - 1 && actions[k] == Check(c) && run[k].epoch == h.threads[c].seen
               && forall j :: k < j <= i - 1 ==> At(run[j], c, h.threads[c]);
      assert forall j :: k < j <= i ==> At(run[j], c, run[i].threads[c]);
    } else {
      assert actions[i - 1] == Check(c);
    }
  }

  ghost predicate Reachable(h: Hub) {
    exists run: seq<Hub>, actions: seq<Action> :: IsRun(run, actions) && run[|run| - 1] == h
  }

  lemma ReachableAct(h: Hub, a: Action)
    requires Reachable(h) && Enabled(h, a)
    ensures Reachable(Act(h, a))
  {
    var run: seq<Hub>, actions: seq<Action> :| IsRun(run, actions) && run[|run| - 1] == h;
    var longer := run + [Act(h, a)];
    assert IsRun(longer, actions + [a]);
    assert longer[|longer| - 1] == Act(h, a);
  }

  /** One controller is being served. */
  lemma FirstControllerServed() returns (h: Hub)
    ensures Reachable(h) && h.threads == map[0 := Serving] && Owner(h, 0) && h.closed == {} && h.epoch == 1
    ensures !h.sessions.takeoverAllowed
  {
    assert IsRun([QUIET_HUB], []) && [QUIET_HUB][0] == QUIET_HUB;
    h := QUIET_HUB;
    ReachableAct(h, Accept(0));
    h := Act(h, Accept(0));
    ReachableAct(h, TryAdmit(0, "", ""));
    h := Act(h, TryAdmit(0, "", ""));
    ReachableAct(h, AutoSelect(0, None));
    h := Act(h, AutoSelect(0, None));
  }

  /** ... takeover has been granted, and a second connection has arrived. */
  lemma SecondControllerArrives() returns (h: Hub)
    ensures Reachable(h) && At(h, 0, Serving) && At(h, 1, Arriving) && Owner(h, 0)
    ensures h.sessions.takeoverAllowed && h.epoch == 1
  {
    h := FirstControllerServed();
    ReachableAct(h, RpcAllowTakeover(0));
    h := Act(h, RpcAllowTakeover(0));
    ReachableAct(h, Accept(1));
    h := Act(h, Accept(1));
  }

  /**
   * "A closing thread clears only its own session" fails: a takeover that
   * slips in between the check and the act is undone, and the controller that
   * made it is served on without a session.
   */
  lemma CleanupCanClearForeignSession()
    ensures exists h :: Reachable(h) && Enabled(h, Clear(0)) && ClearsForeignSession(h, 0)
                        && Act(h, Clear(0)).sessions.current.None? && At(Act(h, Clear(0)), 1, Selecting)
  {
    var h := SecondControllerArrives();
    ReachableAct(h, LeaveLoop(0));
    h := Act(h, LeaveLoop(0));
    ReachableAct(h, Check(0));
    h := Act(h, Check(0));
    ReachableAct(h, TryAdmit(1, "", ""));
    h := Act(h, TryAdmit(1, "", ""));
  }

  /** No race is needed: a controller that was taken over, its request still in hand, ends its successor's session. */
  lemma EvictedControllerEndsForeignSession()
    ensures exists h :: Reachable(h) && Enabled(h, RpcDisconnect(0)) && ClearsForeignSession(h, 0) && Owner(h, 1)
                        && Act(h, RpcDisconnect(0)).sessions.current.None?
  {
    var h := SecondControllerArrives();
    ReachableAct(h, TryAdmit(1, "", ""));
    h := Act(h, TryAdmit(1, "", ""));
  }

  /** A refusal that cannot be delivered leaves its connection open: only threads that end in order are sure to close theirs. */
  lemma FailedRefusalLeavesConnectionOpen()
    ensures exists h :: Reachable(h) && At(h, 0, Serving) && At(h, 1, Died) && 1 !in h.closed
  {
    var h := FirstControllerServed();
    ReachableAct(h, Accept(1));
    h := Act(h, Accept(1));
    ReachableAct(h, TryAdmit(1, "", ""));
    h := Act(h, TryAdmit(1, "", ""));
    ReachableAct(h, RefusalFails(1));
    h := Act(h, RefusalFails(1));
  }
}
