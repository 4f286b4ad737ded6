/**
 * Many caller threads share one connection to the hub.  Ids are issued under
 * a lock, a reader thread publishes results into `pending`, and the hub
 * answers requests one at a time while events are pushed onto the same socket.
 */
module RpcMultiplex {
  import opened Prelude
  import Messages

  type Value = Messages.Value

  datatype Call = Call(domain: string, op: string, args: Value)

  datatype Request = Request(id: nat, call: Call)

  /** A response body: `Failure` carries the optional `error` text. */
  datatype Answer = Success(data: Value) | Failure(error: Option<string>)

  datatype Exception = Exception(text: string)

  /** What `call()` ends with: data, an RpcError, or the fatal connection error. */
  datatype Outcome = Data(data: Value) | RpcError(text: string) | Fatal(exc: Exception)

  /** `RpcError(resp.error or "unknown error")` for an error response, the data otherwise. */
  function Publish(a: Answer): Outcome {
    match a
    case Success(d) => Data(d)
    case Failure(None) => RpcError("unknown error")
    case Failure(Some(text)) => RpcError(if text == "" then "unknown error" else text)
  }

  // ---- the client's shared fields, and what each critical section does -------

  datatype Client = Client(nextId: nat, pending: map<nat, Outcome>, error: Option<Exception>, running: bool)

  function Issued(c: Client): Client {
    c.(nextId := c.nextId + 1)
  }

  function Dispatched(c: Client, id: nat, a: Answer): Client {
    c.(pending := c.pending[id := Publish(a)])
  }

  function Overwritten(c: Client, e: Exception): Client {
    c.(pending := map id | id in c.pending :: Fatal(e))
  }

  function ErrorSet(c: Client, e: Exception): Client {
    c.(error := Some(e))
  }

  function Collected(c: Client, id: nat): Client {
    c.(pending := c.pending - {id})
  }

  datatype Begun = Sent(id: nat) | NotConnected | Raised(exc: Exception)

  class RpcClient {
    var nextId: nat
    var pending: map<nat, Outcome>
    var error: Option<Exception>
    var running: bool
    var connected: bool
    var wire: seq<Request>  // what has been written to the connection

    function View(): Client
      reads this
    {
      Client(nextId, pending, error, running)
    }

    constructor ()
      ensures View() == Client(0, map[], None, false) && !connected && wire == []
    {
      nextId, pending, error, running, connected, wire := 0, map[], None, false, false, [];
    }

    method Connect()
      modifies this
      ensures View() == old(View()).(error := None, running := true) && connected && wire == []
    {
      connected, wire, error, running := true, [], None, true;
    }

    /** The block of `call` under `_lock`; `sendFails` is the exception `conn.send` raises, if any. */
    method BeginCall(call: Call, sendFails: Option<Exception>) returns (r: Begun)
      modifies this
      ensures connected == old(connected)
      ensures !old(connected) ==> r == NotConnected && View() == old(View()) && wire == old(wire)
      ensures old(connected) && old(error).Some? ==>
        r == Raised(old(error).value) && View() == old(View()) && wire == old(wire)
      ensures old(connected) && old(error).None? && sendFails.None? ==>
        r == Sent(old(nextId)) && View() == Issued(old(View()))
        && wire == old(wire) + [Request(old(nextId), call)]
      ensures old(connected) && old(error).None? && sendFails.Some? ==>
        r == Raised(sendFails.value) && wire == old(wire)
        && View() == Overwritten(ErrorSet(Issued(old(View())), sendFails.value), sendFails.value)
    {
      if !connected {
        return NotConnected;
      }
      if error.Some? {
        return Raised(error.value);
      }
      var id := nextId;
      nextId := nextId + 1;
      if sendFails.Some? {
        RecordError(sendFails.value);
        return Raised(sendFails.value);
      }
      wire := wire + [Request(id, call)];
      return Sent(id);
    }

    /** One pass of the wait loop: the result is popped if it is there. */
    method TryCollect(id: nat) returns (r: Option<Outcome>)
      modifies this`pending
      ensures id in old(pending) ==> r == Some(old(pending)[id]) && View() == Collected(old(View()), id)
      ensures id !in old(pending) ==> r == None && View() == old(View())
    {
      if id !in pending {
        return None;
      }
      r := Some(pending[id]);
      pending := pending - {id};
    }

    method DispatchResponse(id: nat, answer: Answer)
      modifies this`pending
      ensures View() == Dispatched(old(View()), id, answer)
    {
      match answer {
        case Failure(e) =>
          var text := if e.None? || e.value == "" then "unknown error" else e.value;
          pending := pending[id := RpcError(text)];
        case Success(d) =>
          pending := pending[id := Data(d)];
      }
    }

    method RecordError(exc: Exception)
      modifies this`error, this`pending
      ensures View() == Overwritten(ErrorSet(old(View()), exc), exc)
    {
      error := Some(exc);
      var todo := pending.Keys;
      while todo != {}
        invariant pending.Keys == old(pending).Keys && todo <= pending.Keys
        invariant forall id :: id in pending.Keys - todo ==> pending[id] == Fatal(exc)
        invariant error == Some(exc) && nextId == old(nextId) && running == old(running)
        decreases todo
      {
        var rid :| rid in todo;
        pending := pending[rid := Fatal(exc)];
        todo := todo - {rid};
      }
      assert pending == Overwritten(ErrorSet(old(View()), exc), exc).pending;
    }

    method Close()
      modifies this
      ensures View() == old(View()).(running := false) && !connected && wire == old(wire)
    {
      running := false;
      connected := false;
    }
  }

  // ---- client, channels and hub as one step system ----------------------------

  /** The caller inside `with self._lock`. */
  datatype Lock = Free | Sending(req: Request) | SendRaised(id: nat, exc: Exception)

  /** `Over`: the request loop has ended, maybe with a request taken but not answered. */
  datatype Hub = Idle | Dispatching(req: Request) | Replying(id: nat, answer: Answer) | Over(dropped: Option<nat>)

  datatype Incoming = Response(id: nat, answer: Answer) | Event(data: Value)

  /** The reader thread: about to test `_running`, inside `recv`, about to overwrite `_pending`, or gone. */
  datatype Reader = Testing | Receiving | Recording(exc: Exception) | Stopped

  /**
   * `admitted` says that the hub serves requests, `connected` that `close` has
   * not dropped the connection yet.  `torn` is set by a receive
   * timeout inside a frame; `lost` is the response that frame carried; `mangled`
   * says that since then some bytes have been taken for a message nobody sent.
   * `calls`, `answered` and `published` are history: what was asked, what the
   * hub answered to what, and which responses were read whole, in order.
   */
  datatype Sys = Sys(
    client: Client, lock: Lock, waiting: set<nat>, returned: map<nat, Outcome>,
    toHub: seq<Request>, hub: Hub, toClient: seq<Incoming>, reader: Reader, admitted: bool,
    connected: bool, torn: bool, lost: seq<nat>, mangled: bool,
    calls: map<nat, Call>, answered: map<nat, (Call, Answer)>, published: seq<nat>)

  const CONNECTED: Client := Client(0, map[], None, true)

  function Start(admitted: bool, greeting: seq<Incoming>): Sys {
    Sys(CONNECTED, Free, {}, map[], [], Idle, greeting, Testing, admitted, true, false, [], false, map[], map[], [])
  }

  /** A controller the hub admitted. */
  const ADMITTED: Sys := Start(true, [])

  /**
   * A controller the hub turned away: an unsolicited response with id 0, and no
   * request loop.  Either there was a session already, or the session just
   * admitted was gone again when a device was to be selected for it.
   */
  const BUSY: string := "a controller session is already active"
  const GONE: string := "no active session"

  function Refused(reason: string): Sys {
    Start(false, [Response(0, Failure(Some(reason)))])
  }

  datatype Step =
    | Issue(call: Call)              // a caller passes the checks and takes an id
    | SendOk
    | SendFails(exc: Exception)      // `_error` is set ...
    | SendFailRecords                // ... and then `_pending` overwritten
    | HubRecv
    | HubDispatch(answer: Answer)
    | HubSend
    | HubEvent(data: Value)          // the subscription thread
    | HubEnds                        // connection gone, hub stopping, or an exception in the loop
    | ReadResponse
    | ReadEvent
    | Tear                           // a receive timeout inside the next frame; the reader carries on
    | Garbage(m: Incoming)           // what is left of the stream is taken for some message
    | ReaderFails(exc: Exception)
    | ReaderRecords
    | ReaderTests                    // `while self._running`
    | ReaderTimeout                  // a receive timeout between frames
    | Collect(id: nat)               // a waiting caller finds its result
    | Close                          // `close` clears `_running` ...
    | Disconnect                     // ... and later drops the connection

  predicate Enabled(s: Sys, step: Step) {
    match step
    case Issue(_) => s.lock.Free? && s.connected && s.client.error.None?
    case SendOk => s.lock.Sending?
    case SendFails(_) => s.lock.Sending?
    case SendFailRecords => s.lock.SendRaised?
    case HubRecv => s.admitted && s.hub.Idle? && s.toHub != []
    case HubDispatch(_) => s.hub.Dispatching?
    case HubSend => s.hub.Replying?
    case HubEvent(_) => true
    case HubEnds => s.admitted && !s.hub.Over?
    case ReadResponse => CanRead(s) && !s.torn && s.toClient != [] && s.toClient[0].Response?
    case ReadEvent => CanRead(s) && !s.torn && s.toClient != [] && s.toClient[0].Event?
    case Tear => CanRead(s) && !s.torn && s.toClient != []
    case Garbage(_) => CanRead(s) && s.torn
    case ReaderTests => s.reader.Testing?
    case ReaderTimeout => s.reader.Receiving?
    case ReaderFails(_) => s.reader.Receiving?
    case ReaderRecords => s.reader.Recording?
    case Collect(id) => id in s.waiting && id in s.client.pending
    case Close => s.client.running
    case Disconnect => !s.client.running && s.connected && s.lock.Free?
  }

  predicate CanRead(s: Sys) {
    s.reader.Receiving? && s.connected
  }

  /** The request the hub is at work on. */
  function Taken(h: Hub): Option<nat> {
    match h
    case Idle => None
    case Dispatching(req) => Some(req.id)
    case Replying(id, _) => Some(id)
    case Over(dropped) => dropped
  }

  function Answered(s: Sys, a: Answer): Sys
    requires s.hub.Dispatching?
  {
    var req := s.hub.req;
    s.(hub := Replying(req.id, a), answered := s.answered[req.id := (req.call, a)])
  }

  /** `recv` raises: an error while running, otherwise just the end. */
  function ReaderFailed(s: Sys, e: Exception): Sys {
    if s.client.running then s.(client := ErrorSet(s.client, e), reader := Recording(e)) else s.(reader := Stopped)
  }

  function ReaderRecorded(s: Sys): Sys
    requires s.reader.Recording?
  {
    s.(client := Overwritten(s.client, s.reader.exc), reader := Stopped)
  }

  function Returned(s: Sys, id: nat): Sys
    requires id in s.client.pending
  {
    s.(client := Collected(s.client, id), waiting := s.waiting - {id},
       returned := s.returned[id := s.client.pending[id]])
  }

  predicate ByHub(step: Step) {
    step.HubRecv? || step.HubDispatch? || step.HubSend? || step.HubEvent? || step.HubEnds?
  }

  predicate ByReader(step: Step) {
    || step.ReadResponse? || step.ReadEvent? || step.Tear? || step.Garbage?
    || step.ReaderTests? || step.ReaderTimeout? || step.ReaderFails? || step.ReaderRecords?
  }

  function Apply(s: Sys, step: Step): Sys
    requires Enabled(s, step)
  {
    match step
    case Issue(call) =>
      var id := s.client.nextId;
      s.(client := Issued(s.client), lock := Sending(Request(id, call)), calls := s.calls[id := call])
    case SendOk =>
      s.(lock := Free, toHub := s.toHub + [s.lock.req], waiting := s.waiting + {s.lock.req.id})
    case SendFails(e) => s.(client := ErrorSet(s.client, e), lock := SendRaised(s.lock.req.id, e))
    case SendFailRecords =>
      s.(client := Overwritten(s.client, s.lock.exc), lock := Free,
         returned := s.returned[s.lock.id := Fatal(s.lock.exc)])
    case HubRecv => s.(hub := Dispatching(s.toHub[0]), toHub := s.toHub[1..])
    case HubDispatch(a) => Answered(s, a)
    case HubSend => s.(hub := Idle, toClient := s.toClient + [Response(s.hub.id, s.hub.answer)])
    case HubEvent(d) => s.(toClient := s.toClient + [Event(d)])
    case HubEnds => s.(hub := Over(Taken(s.hub)))
    case ReadResponse =>
      var r := s.toClient[0];
      s.(client := Dispatched(s.client, r.id, r.answer), toClient := s.toClient[1..], published := s.published + [r.id],
         reader := Testing)
    case ReadEvent => s.(toClient := s.toClient[1..], reader := Testing)
    case Tear =>
      s.(toClient := s.toClient[1..], torn := true, reader := Testing,
         lost := if s.toClient[0].Response? then [s.toClient[0].id] else [])
    case Garbage(m) =>
      s.(client := if m.Response? then Dispatched(s.client, m.id, m.answer) else s.client, mangled := true,
         reader := Testing)
    case ReaderTests => s.(reader := if s.client.running then Receiving else Stopped)
    case ReaderTimeout => s.(reader := Testing)
    case ReaderFails(e) => ReaderFailed(s, e)
    case ReaderRecords => ReaderRecorded(s)
    case Collect(id) => Returned(s, id)
    case Close => s.(client := s.client.(running := false))
    case Disconnect => s.(connected := false)
  }

  ghost predicate RunFrom(s: Sys, run: seq<Sys>, steps: seq<Step>) {
    && |run| == |steps| + 1 && run[0] == s
    && forall i :: 0 <= i < |steps| ==> Enabled(run[i], steps[i]) && run[i + 1] == Apply(run[i], steps[i])
  }

  ghost predicate Reaches(s: Sys, t: Sys) {
    exists run: seq<Sys>, steps: seq<Step> :: RunFrom(s, run, steps) && run[|run| - 1] == t
  }

  lemma ReachesItself(s: Sys)
    ensures Reaches(s, s)
  {
    assert RunFrom(s, [s], []);
  }

  lemma ReachesStep(s: Sys, t: Sys, step: Step)
    requires Reaches(s, t) && Enabled(t, step)
    ensures Reaches(s, Apply(t, step))
  {
    var run: seq<Sys>, steps: seq<Step> :| RunFrom(s, run, steps) && run[|run| - 1] == t;
    var longer := run + [Apply(t, step)];
    assert RunFrom(s, longer, steps + [step]);
    assert longer[|longer| - 1] == Apply(t, step);
  }

  lemma StepReaches(s: Sys, step: Step, t: Sys)
    requires Enabled(s, step) && Reaches(Apply(s, step), t)
    ensures Reaches(s, t)
  {
    var run: seq<Sys>, steps: seq<Step> :| RunFrom(Apply(s, step), run, steps) && run[|run| - 1] == t;
    var longer := [s] + run;
    assert RunFrom(s, longer, [step] + steps);
    assert longer[|longer| - 1] == t;
  }

  // ---- where an id is ----------------------------------------------------------

  function One(b: bool): nat {
    if b then 1 else 0
  }

  predicate InHand(l: Lock, id: nat) {
    (l.Sending? && l.req.id == id) || (l.SendRaised? && l.id == id)
  }

  predicate AtHub(h: Hub, id: nat) {
    Taken(h) == Some(id)
  }

  function InRequests(ch: seq<Request>, id: nat): nat {
    if ch == [] then 0 else One(ch[0].id == id) + InRequests(ch[1..], id)
  }

  function InResponses(ch: seq<Incoming>, id: nat): nat {
    if ch == [] then 0 else One(ch[0].Response? && ch[0].id == id) + InResponses(ch[1..], id)
  }

  /** How often an id occurs over all seven places it can be in. */
  function Places(s: Sys, id: nat): nat {
    One(InHand(s.lock, id)) + InRequests(s.toHub, id) + One(AtHub(s.hub, id)) + InResponses(s.toClient, id)
    + One(id in s.lost) + One(id in s.client.pending) + One(id in s.returned)
  }

  // ---- invariant ------------------------------------------------------------------

  predicate LocatedId(s: Sys, id: nat) {
    && Places(s, id) == One(id < s.client.nextId)
    && (id in s.waiting <==> id < s.client.nextId && id !in s.returned && !InHand(s.lock, id))
  }

  ghost predicate Located(s: Sys) {
    s.admitted && !s.mangled && (!s.torn ==> s.lost == []) && forall id: nat :: LocatedId(s, id)
  }

  predicate Genuine(s: Sys, id: nat, o: Outcome) {
    id in s.answered && id in s.calls && s.answered[id].0 == s.calls[id] && o == Publish(s.answered[id].1)
  }

  predicate AnswerTo(s: Sys, id: nat, a: Answer) {
    id in s.calls && id in s.answered && s.answered[id] == (s.calls[id], a)
  }

  ghost predicate Truthful(s: Sys) {
    && (s.lock.Sending? ==> s.lock.req.id in s.calls && s.calls[s.lock.req.id] == s.lock.req.call)
    && (s.lock.SendRaised? ==> s.client.error.Some?)
    && (s.reader.Recording? ==> s.client.error.Some?)
    && (forall k :: 0 <= k < |s.toHub| ==> s.toHub[k].id in s.calls && s.calls[s.toHub[k].id] == s.toHub[k].call)
    && (s.hub.Dispatching? ==> s.hub.req.id in s.calls && s.calls[s.hub.req.id] == s.hub.req.call)
    && (s.hub.Replying? ==> AnswerTo(s, s.hub.id, s.hub.answer))
    && (forall k :: 0 <= k < |s.toClient| && s.toClient[k].Response? ==> AnswerTo(s, s.toClient[k].id, s.toClient[k].answer))
    && (forall id :: id in s.client.pending ==>
          Genuine(s, id, s.client.pending[id]) || (s.client.error.Some? && s.client.pending[id].Fatal?))
    && (forall id :: id in s.returned ==>
          Genuine(s, id, s.returned[id]) || (s.client.error.Some? && s.returned[id].Fatal?))
    && (forall id :: id in s.calls || id in s.answered ==> id < s.client.nextId)
  }

  ghost predicate Sound(s: Sys) {
    Located(s) && Truthful(s)
  }

  lemma {:induction false} RunSound(run: seq<Sys>, steps: seq<Step>, i: nat)
    requires RunFrom(ADMITTED, run, steps) && i < |run|
    ensures !run[i].mangled ==> Sound(run[i])
  {
    if i > 0 {
      RunSound(run, steps, i - 1);
      StepKeepsSound(run[i - 1], steps[i - 1]);
    }
  }

  lemma RunKeepsInvariant(run: seq<Sys>, steps: seq<Step>, i: nat)
    requires RunFrom(ADMITTED, run, steps) && i < |run| && !run[i].mangled
    ensures Located(run[i]) && Truthful(run[i])
  {
    RunSound(run, steps, i);
  }

  // ---- the promises -----------------------------------------------------------------

  /**
   * In every run of an admitted controller, whatever fails on either side, as
   * long as no bytes of a torn frame have been taken for a message: each issued
   * id is in exactly one place, once, and no other id is anywhere.
   */
  lemma EachIdInOnePlace(run: seq<Sys>, steps: seq<Step>, i: nat, id: nat)
    requires RunFrom(ADMITTED, run, steps) && i < |run| && !run[i].mangled
    ensures Places(run[i], id) == if id < run[i].client.nextId then 1 else 0
    ensures id in run[i].waiting <==> id < run[i].client.nextId && id !in run[i].returned && !InHand(run[i].lock, id)
  {
    RunKeepsInvariant(run, steps, i);
    assert LocatedId(run[i], id);
  }

  /** The call ended with what the hub answered to what it asked, or with a recorded fatal error. */
  predicate OwnAnswer(s: Sys, id: nat)
    requires id in s.returned
  {
    || (s.returned[id].Fatal? && s.client.error.Some?)
    || (id in s.calls && id in s.answered && s.answered[id].0 == s.calls[id] && Reports(s.returned[id], s.answered[id].1))
  }

  /** Data is returned as it is; an error is raised with its text, which is never empty. */
  predicate Reports(o: Outcome, a: Answer) {
    match a
    case Success(d) => o == Data(d)
    case Failure(e) => o == RpcError(if e == None || e == Some("") then "unknown error" else e.value)
  }

  /**
   * No cross-talk: a call returns the hub's answer to that very call, or a
   * fatal error, and the latter only once the connection has failed.
   */
  lemma ReturnsOwnAnswer(run: seq<Sys>, steps: seq<Step>, i: nat, id: nat)
    requires RunFrom(ADMITTED, run, steps) && i < |run| && !run[i].mangled && id in run[i].returned
    ensures OwnAnswer(run[i], id)
  {
    RunKeepsInvariant(run, steps, i);
  }

  function ResponseIds(ch: seq<Incoming>): seq<nat> {
    if ch == [] then []
    else (if ch[0].Response? then [ch[0].id] else []) + ResponseIds(ch[1..])
  }

  function AtHubIds(h: Hub): seq<nat> {
    match h
    case Idle => []
    case Dispatching(req) => [req.id]
    case Replying(id, _) => [id]
    case Over(None) => []
    case Over(Some(id)) => [id]
  }

  function RequestIds(ch: seq<Request>): seq<nat> {
    seq(|ch|, i requires 0 <= i < |ch| => ch[i].id)
  }

  function InHandIds(l: Lock): seq<nat> {
    match l
    case Free => []
    case Sending(req) => [req.id]
    case SendRaised(id, _) => [id]
  }

  /** Every id whose answer is published, lost, or still to come, oldest first. */
  function Line(s: Sys): seq<nat> {
    s.published + s.lost + ResponseIds(s.toClient) + AtHubIds(s.hub) + RequestIds(s.toHub) + InHandIds(s.lock)
  }

  /** The line is 0, 1, 2, ... without a gap, a response torn apart included; only a failed send, the last there can be, leaves it. */
  ghost predicate InOrder(s: Sys) {
    && (forall k :: 0 <= k < |Line(s)| ==> Line(s)[k] == k)
    && (|Line(s)| == s.client.nextId || (s.client.error.Some? && s.lock.Free? && |Line(s)| + 1 == s.client.nextId))
    && (s.lock.SendRaised? ==> s.client.error.Some?)
    && (!s.torn ==> s.lost == [])
  }

  /** What the steps keep besides the line. */
  predicate KeepsRest(s: Sys, t: Sys) {
    && t.client.nextId == s.client.nextId
    && (s.client.error.Some? ==> t.client.error.Some?) && (s.lock.Free? ==> t.lock.Free?)
    && (t.lock.SendRaised? ==> t.client.error.Some?) && (!t.torn ==> t.lost == [])
  }

  /** The reader publishes responses in the order the ids were issued, without a gap, events notwithstanding. */
  lemma {:induction false} PublishedInIssueOrder(run: seq<Sys>, steps: seq<Step>, i: nat)
    requires RunFrom(ADMITTED, run, steps) && i < |run|
    ensures InOrder(run[i])
    ensures forall k :: 0 <= k < |run[i].published| ==> run[i].published[k] == k
  {
    if i > 0 {
      PublishedInIssueOrder(run, steps, i - 1);
      StepKeepsInOrder(run[i - 1], steps[i - 1]);
    }
    PublishedComesFirst(run[i]);
  }

  // ---- calls come back ------------------------------------------------------------------

  /** The connection works: nothing has failed or been torn, nobody closed it, reader and request loop are running. */
  predicate Healthy(s: Sys) {
    && s.admitted && s.connected && s.client.error.None? && s.client.running
    && (s.reader.Testing? || s.reader.Receiving?) && !s.torn && !s.hub.Over?
  }

  /** A step by which a call already begun, or a message already sent, gets on. */
  predicate Working(step: Step) {
    || step.SendOk? || step.HubRecv? || step.HubDispatch? || step.HubSend?
    || step.ReaderTests? || step.ReadResponse? || step.ReadEvent? || step.Collect?
  }

  /** An upper bound on the working steps that remain. */
  function Owed(s: Sys): nat {
    (if s.lock.Sending? then 7 else 0) + 6 * |s.toHub|
    + (match s.hub case Idle => 0 case Dispatching(_) => 5 case Replying(_, _) => 4 case Over(_) => 0)
    + 3 * |s.toClient| + |s.client.pending| + if s.reader.Testing? then 1 else 0
  }

  /** The next message to arrive is the answer to this call, or can be. */
  predicate NextToArrive(s: Sys, id: nat) {
    if s.toClient != [] then s.toClient[0].Response? && s.toClient[0].id == id
    else
      match s.hub
      case Idle => s.toHub != [] && s.toHub[0].id == id
      case Over(_) => false
      case _ => Taken(s.hub) == Some(id)
  }

  /**
   * Messages can still be read, and the answer to this call can be among them:
   * any of those to come while the client is running, but only the very next
   * one after `close`, and only if the reader is already waiting for it.
   */
  predicate Readable(s: Sys, id: nat) {
    && !s.torn && s.connected
    && if s.client.running
       then (s.reader.Testing? || s.reader.Receiving?) && (InResponses(s.toClient, id) > 0 || !s.hub.Over?)
       else s.reader.Receiving? && NextToArrive(s, id)
  }

  /** The answer to a waiting call is there, or can still arrive. */
  predicate Recoverable(s: Sys, id: nat) {
    id in s.client.pending || Readable(s, id)
  }

  /**
   * Neither deadlock nor livelock on a working connection: while a call is
   * outstanding some working step can be taken, and each of them uses up work
   * that only a new call, a new event or an idle receive timeout adds.
   */
  lemma CallsComeBack(run: seq<Sys>, steps: seq<Step>, i: nat)
    requires RunFrom(ADMITTED, run, steps) && i < |run| && Healthy(run[i]) && !run[i].mangled
    ensures run[i].waiting != {} || run[i].lock.Sending? ==> exists step :: Working(step) && Enabled(run[i], step)
    ensures forall step :: Working(step) && Enabled(run[i], step) ==>
      Healthy(Apply(run[i], step)) && Owed(Apply(run[i], step)) < Owed(run[i])
  {
    RunKeepsInvariant(run, steps, i);
    var s := run[i];
    if s.lock.Sending? {
      assert Working(SendOk) && Enabled(s, SendOk);
    } else if id :| id in s.waiting {
      if id in s.client.pending {
        assert Working(Collect(id)) && Enabled(s, Collect(id));
      } else {
        var step := SomeWork(s, id);
      }
    }
    forall step | Working(step) && Enabled(s, step) ensures Healthy(Apply(s, step)) && Owed(Apply(s, step)) < Owed(s) {
      WorkIsUsedUp(s, step);
    }
  }

  // ---- which calls can still return ------------------------------------------------------

  /** Some continuation, without garbage being taken for a message, returns the call. */
  ghost predicate CanReturn(s: Sys, id: nat) {
    exists t :: Reaches(s, t) && !t.mangled && id in t.returned
  }

  /** A waiting call whose answer cannot arrive any more waits in every continuation. */
  lemma {:induction false} StrandedForever(s: Sys, run: seq<Sys>, steps: seq<Step>, i: nat, id: nat)
    requires RunFrom(s, run, steps) && i < |run| && !run[i].mangled
    requires Located(s) && id in s.waiting && !Recoverable(s, id)
    ensures Located(run[i]) && id in run[i].waiting && !Recoverable(run[i], id) && id !in run[i].returned
  {
    if i > 0 {
      assert run[i] == Apply(run[i - 1], steps[i - 1]);
      StrandedForever(s, run, steps, i - 1, id);
      StepKeepsLocated(run[i - 1], steps[i - 1]);
      assert LocatedId(run[i - 1], id);
      StepKeepsUnrecoverable(run[i - 1], steps[i - 1], id);
    }
    assert LocatedId(run[i], id);
  }

  /**
   * In every state of every run, exactly: a waiting call can still return iff
   * its id has an entry, or its answer is readable: on an untorn stream that
   * holds it or to which the hub can still add it, and after `close` only as
   * the one message the reader is already waiting for.
   */
  lemma WaitingCallReturnsIff(run: seq<Sys>, steps: seq<Step>, i: nat, id: nat)
    requires RunFrom(ADMITTED, run, steps) && i < |run| && !run[i].mangled && id in run[i].waiting
    ensures CanReturn(run[i], id) <==> Recoverable(run[i], id)
  {
    RunKeepsInvariant(run, steps, i);
    var s := run[i];
    if Recoverable(s, id) {
      RecoverableReturns(s, id);
    } else {
      forall t | Reaches(s, t) && !t.mangled ensures id !in t.returned {
        var later: seq<Sys>, moves: seq<Step> :| RunFrom(s, later, moves) && later[|later| - 1] == t;
        StrandedForever(s, later, moves, |later| - 1, id);
      }
    }
  }

  // ---- after a fatal error -------------------------------------------------------------

  /** The caller has returned, or will, with a fatal error. */
  ghost predicate Released(s: Sys, id: nat) {
    && Located(s) && !InHand(s.lock, id)
    && if id in s.returned then s.returned[id].Fatal?
       else id in s.waiting && id in s.client.pending && s.client.pending[id].Fatal?
  }

  ghost predicate ReturnsOnlyFatal(s: Sys, id: nat) {
    forall t :: Reaches(s, t) && !t.mangled && id in t.returned ==> t.returned[id].Fatal?
  }

  /**
   * What `_record_error` achieves when the reader dies, against its promise to
   * unblock all callers: the waiting calls that can still return are exactly
   * those whose id already had an entry, and they return a fatal error.
   */
  lemma ReleasedOrStranded(run: seq<Sys>, steps: seq<Step>, i: nat, id: nat)
    requires RunFrom(ADMITTED, run, steps) && i < |steps| && !run[i].mangled && steps[i] == ReaderRecords
    requires id in run[i].waiting
    ensures id in run[i + 1].waiting
    ensures CanReturn(run[i + 1], id) <==> id in run[i].client.pending
    ensures id in run[i].client.pending ==>
      run[i + 1].client.pending[id] == Fatal(run[i].reader.exc) && ReturnsOnlyFatal(run[i + 1], id)
  {
    assert run[i + 1] == Apply(run[i], ReaderRecords);
    WaitingCallReturnsIff(run, steps, i + 1, id);
    RunKeepsInvariant(run, steps, i + 1);
    assert LocatedId(run[i + 1], id);
    if id in run[i].client.pending {
      ReleasedReturnsOnlyFatal(run[i + 1], id);
    }
  }

  /**
   * What it achieves when a send fails: calls with an entry are released, be
   * the entry a good answer; of the others those return whose answer is
   * readable, since the reader reads on.
   */
  lemma SendFailureSplit(run: seq<Sys>, steps: seq<Step>, i: nat, id: nat)
    requires RunFrom(ADMITTED, run, steps) && i < |steps| && !run[i].mangled && steps[i] == SendFailRecords
    requires id in run[i].waiting
    ensures id in run[i + 1].waiting
    ensures var s := run[i];
      CanReturn(run[i + 1], id) <==>
        id in s.client.pending || Readable(s, id)
    ensures id in run[i].client.pending ==>
      run[i + 1].client.pending[id] == Fatal(run[i].lock.exc) && ReturnsOnlyFatal(run[i + 1], id)
  {
    assert run[i + 1] == Apply(run[i], SendFailRecords);
    WaitingCallReturnsIff(run, steps, i + 1, id);
    RunKeepsInvariant(run, steps, i + 1);
    assert LocatedId(run[i + 1], id);
    if id in run[i].client.pending {
      ReleasedReturnsOnlyFatal(run[i + 1], id);
    }
  }

  /**
   * `close` leaves to the calls without an entry just one chance: that the
   * reader is already waiting for a message and the answer is the next to arrive.
   */
  lemma CloseSplit(run: seq<Sys>, steps: seq<Step>, i: nat, id: nat)
    requires RunFrom(ADMITTED, run, steps) && i < |steps| && !run[i].mangled && steps[i] == Close
    requires id in run[i].waiting
    ensures var s := run[i];
      CanReturn(run[i + 1], id) <==>
        id in s.client.pending || (CanRead(s) && !s.torn && NextToArrive(s, id))
  {
    assert run[i + 1] == Apply(run[i], Close);
    WaitingCallReturnsIff(run, steps, i + 1, id);
  }

  /** When the reader then stops, the calls without an entry are stranded for good, and no error is recorded. */
  lemma StopSplit(run: seq<Sys>, steps: seq<Step>, i: nat, id: nat)
    requires RunFrom(ADMITTED, run, steps) && i < |steps| && !run[i].mangled && !run[i].client.running
    requires (steps[i].ReaderTests? || steps[i].ReaderFails?) && id in run[i].waiting
    ensures run[i + 1].reader.Stopped? && id in run[i + 1].waiting && run[i + 1].client == run[i].client
    ensures CanReturn(run[i + 1], id) <==> id in run[i].client.pending
  {
    assert run[i + 1] == Apply(run[i], steps[i]);
    WaitingCallReturnsIff(run, steps, i + 1, id);
  }

  predicate SameIds(s: Sys, t: Sys) {
    t.client.error.Some? && t.client.nextId == s.client.nextId
  }

  /** Once an error is recorded it stays recorded, and no further id is ever issued: later calls fail at the check. */
  lemma {:induction false} LaterCallsFailAtCheck(s: Sys, run: seq<Sys>, steps: seq<Step>, i: nat)
    requires RunFrom(s, run, steps) && i < |run| && s.client.error.Some?
    ensures run[i].client.error.Some? && run[i].client.nextId == s.client.nextId
    ensures forall call :: !Enabled(run[i], Issue(call))
  {
    if i > 0 {
      LaterCallsFailAtCheck(s, run, steps, i - 1);
      ErrorStays(run[i - 1], steps[i - 1]);
    }
  }

  /**
   * After `close` the reader's end is near: from its test it leaves at once,
   * and from `recv` any step it takes - a message, a timeout, an error - brings
   * it to the test or out.
   */
  lemma ClosedReaderEnds(s: Sys, step: Step)
    requires Enabled(s, step) && ByReader(step) && !s.client.running
    ensures s.reader.Testing? ==> Apply(s, step).reader.Stopped?
    ensures s.reader.Receiving? ==> Apply(s, step).reader.Testing? || Apply(s, step).reader.Stopped?
    ensures s.reader.Recording? ==> Apply(s, step).reader.Stopped?
  {
  }

  predicate AtRest(s: Sys) {
    !s.connected && s.lock.Free?
  }

  /** Once `close` has dropped the connection nothing is sent or received on it any more. */
  lemma {:induction false} NothingAfterDisconnect(s: Sys, run: seq<Sys>, steps: seq<Step>, i: nat, j: nat)
    requires RunFrom(s, run, steps) && i < j < |run| && steps[i] == Disconnect
    ensures run[j].client.nextId == run[i].client.nextId && AtRest(run[j])
    ensures j < |steps| ==> !steps[j].Issue? && !steps[j].SendOk? && !steps[j].ReadResponse? && !steps[j].ReadEvent?
    decreases j
  {
    if i + 1 < j {
      NothingAfterDisconnect(s, run, steps, i, j - 1);
      StepKeepsAtRest(run[j - 1], steps[j - 1]);
    } else {
      DisconnectRests(run[i]);
    }
    if j < |steps| {
      StepKeepsAtRest(run[j], steps[j]);
    }
  }

  /** Once its request loop has ended the hub takes, answers and sends nothing more; the request it was at stays unanswered. */
  lemma {:induction false} HubEndsForGood(s: Sys, run: seq<Sys>, steps: seq<Step>, i: nat, j: nat)
    requires RunFrom(s, run, steps) && i < j < |run| && steps[i] == HubEnds
    ensures run[j].hub == Over(Taken(run[i].hub))
    ensures j < |steps| && ByHub(steps[j]) ==> steps[j].HubEvent?
    decreases j
  {
    assert run[j] == Apply(run[j - 1], steps[j - 1]);
    assert steps[j - 1] == HubEnds ==> run[j].hub == Over(Taken(run[j - 1].hub));
    if i + 1 < j {
      HubEndsForGood(s, run, steps, i, j - 1);
      StepKeepsOver(run[j - 1], steps[j - 1]);
    }
    if j < |steps| && ByHub(steps[j]) {
      HubStepKeepsOver(run[j], steps[j]);
    }
  }

  // ---- runs that show it ---------------------------------------------------------------

  ghost predicate StrandedCall(s: Sys, id: nat) {
    Reaches(ADMITTED, s) && id in s.waiting && !CanReturn(s, id)
  }

  lemma ReachedSplit(s: Sys, id: nat)
    requires Reaches(ADMITTED, s) && !s.mangled && id in s.waiting
    ensures CanReturn(s, id) <==> Recoverable(s, id)
  {
    var run: seq<Sys>, steps: seq<Step> :| RunFrom(ADMITTED, run, steps) && run[|run| - 1] == s;
    WaitingCallReturnsIff(run, steps, |run| - 1, id);
  }

  /** The docstring's promise fails already for one call: its connection dies before the answer comes. */
  lemma UnblockingAllFails(call: Call, e: Exception)
    ensures exists s :: StrandedCall(s, 0) && s.client.error == Some(e) && s.reader.Stopped?
  {
    var s := FirstCallSent(call);
    ReachesStep(ADMITTED, s, ReaderTests);
    s := Apply(s, ReaderTests);
    ReachesStep(ADMITTED, s, ReaderFails(e));
    s := Apply(s, ReaderFails(e));
    ReachesStep(ADMITTED, s, ReaderRecords);
    s := Apply(s, ReaderRecords);
    ReachedSplit(s, 0);
    assert StrandedCall(s, 0);
  }

  /** Nor does `close` unblock it: the call is stranded, and no error is recorded at all. */
  lemma CloseStrandsCall(call: Call)
    ensures exists s :: StrandedCall(s, 0) && s.client.error.None? && s.reader.Stopped?
  {
    var s := FirstCallSent(call);
    ReachesStep(ADMITTED, s, Close);
    s := Apply(s, Close);
    ReachesStep(ADMITTED, s, ReaderTests);
    s := Apply(s, ReaderTests);
    ReachedSplit(s, 0);
    assert StrandedCall(s, 0);
  }

  /** Not even an answer already in the stream is read: the event before it is the last message the reader takes. */
  lemma CloseStrandsAnswer(call: Call, answer: Answer, data: Value)
    ensures exists s :: StrandedCall(s, 0) && CanRead(s) && s.toClient == [Event(data), Response(0, answer)]
  {
    var s := AnswerBehindEvent(call, answer, data);
    ReachesStep(ADMITTED, s, Close);
    s := Apply(s, Close);
    ReachedSplit(s, 0);
    assert StrandedCall(s, 0);
  }

  /** A failed send on a good connection records an error, yet a call without an entry may return all the same. */
  lemma CallOutlivesRecordedError(call: Call, e: Exception)
    ensures exists s :: Reaches(ADMITTED, s) && s.client.error == Some(e) && s.lock.Free?
                        && 0 in s.waiting && 0 !in s.client.pending && CanReturn(s, 0)
  {
    var first := FirstCallSent(call);
    var s := SecondSendFails(first, call, e);
    ReachedSplit(s, 0);
  }

  /** And a good answer already published is thrown away for somebody else's error. */
  lemma GoodAnswerOverwritten(call: Call, data: Value, e: Exception)
    ensures exists s, t :: Reaches(ADMITTED, s) && Reaches(ADMITTED, t) && 0 in s.waiting && 0 in t.waiting
                           && s.client.pending == map[0 := Data(data)] && t.client.pending == map[0 := Fatal(e)]
  {
    var s := FirstCallAnswered(call, data);
    var t := SecondSendFails(s, call, e);
    assert t.client.pending == map[0 := Fatal(e)];
  }

  /**
   * Why the promises stop at `mangled`: after a frame was torn, a call can
   * return data although the hub has not answered anything.
   */
  lemma TornStreamForgesAnswer(call: Call, data: Value)
    ensures exists s :: Reaches(ADMITTED, s) && s.answered == map[] && 0 in s.returned && s.returned[0] == Data(data)
  {
    var s := EventTorn(call, data);
    ReachesStep(ADMITTED, s, ReaderTests);
    s := Apply(s, ReaderTests);
    ReachesStep(ADMITTED, s, Garbage(Response(0, Success(data))));
    s := Apply(s, Garbage(Response(0, Success(data))));
    ReachesStep(ADMITTED, s, Collect(0));
    s := Apply(s, Collect(0));
    assert Reaches(ADMITTED, s) && s.answered == map[] && 0 in s.returned && s.returned[0] == Data(data);
  }

  // ---- a controller that was turned away ----------------------------------------------------

  predicate FromRefusal(id: nat, o: Outcome, reason: string) {
    o.Fatal? || (id == 0 && o == RpcError(reason))
  }

  ghost predicate TurnedAway(s: Sys, reason: string) {
    && !s.admitted && s.hub.Idle? && s.answered == map[]
    && (forall k :: 0 <= k < |s.toClient| && s.toClient[k].Response? ==> s.toClient[k] == Response(0, Failure(Some(reason))))
    && (forall id :: id in s.client.pending ==> FromRefusal(id, s.client.pending[id], reason))
    && (forall id :: id in s.returned ==> FromRefusal(id, s.returned[id], reason))
  }

  /**
   * The unsolicited id-0 reply is taken for the answer to call 0: exactly that
   * call can return anything but a fatal error, and it reports the refusal.
   */
  lemma RefusedReplyReachesCallZero(reason: string, id: nat, o: Outcome)
    requires reason == BUSY || reason == GONE
    ensures !o.Fatal? ==>
      ((exists t :: Reaches(Refused(reason), t) && !t.mangled && id in t.returned && t.returned[id] == o)
       <==> id == 0 && o == RpcError(reason))
  {
    forall t | Reaches(Refused(reason), t) && !t.mangled && id in t.returned && t.returned[id] == o
      ensures FromRefusal(id, o, reason)
    {
      var run: seq<Sys>, steps: seq<Step> :| RunFrom(Refused(reason), run, steps) && run[|run| - 1] == t;
      RefusedRun(reason, run, steps, |run| - 1);
    }
    var t := RefusalCollected(reason);
  }

  // ---- what the promises and the runs rest on ---------------------------------------------------

  lemma PublishedComesFirst(s: Sys)
    requires InOrder(s)
    ensures forall k :: 0 <= k < |s.published| ==> s.published[k] == k
  {
    assert forall k :: 0 <= k < |s.published| ==> Line(s)[k] == s.published[k];
  }

  lemma WorkIsUsedUp(s: Sys, step: Step)
    requires Working(step) && Enabled(s, step)
    ensures Healthy(s) ==> Healthy(Apply(s, step))
    ensures Owed(Apply(s, step)) < Owed(s)
  {
    if step.ReadResponse? {
      var id := s.toClient[0].id;
      assert Apply(s, step).client.pending.Keys == s.client.pending.Keys + {id};
    } else if step.Collect? {
      assert Apply(s, step).client.pending.Keys == s.client.pending.Keys - {step.id};
    }
  }

  /** The next step on the way. */
  lemma SomeWork(s: Sys, id: nat) returns (step: Step)
    requires Located(s) && id in s.waiting && id !in s.client.pending && Recoverable(s, id)
    ensures Working(step) && Enabled(s, step)
    ensures id in Apply(s, step).waiting && Recoverable(Apply(s, step), id)
  {
    assert LocatedId(s, id);
    if s.reader.Testing? {
      step := ReaderTests;
    } else if s.toClient != [] {
      step := if s.toClient[0].Response? then ReadResponse else ReadEvent;
    } else {
      step := match s.hub
        case Idle => HubRecv
        case Dispatching(_) => HubDispatch(Failure(None))
        case _ => HubSend;
      if step.HubSend? {
        InResponsesAppend(s.toClient, Response(s.hub.id, s.hub.answer), id);
      }
    }
  }

  /** A call whose answer can still arrive is brought home by induction on the work that is owed. */
  lemma {:induction false} RecoverableReturns(s: Sys, id: nat)
    requires Located(s) && id in s.waiting && Recoverable(s, id)
    ensures CanReturn(s, id)
    decreases Owed(s)
  {
    if id in s.client.pending {
      ReachesItself(s);
      ReachesStep(s, s, Collect(id));
      assert id in Apply(s, Collect(id)).returned;
    } else {
      var step := SomeWork(s, id);
      StepKeepsLocated(s, step);
      WorkIsUsedUp(s, step);
      RecoverableReturns(Apply(s, step), id);
      var t :| Reaches(Apply(s, step), t) && !t.mangled && id in t.returned;
      StepReaches(s, step, t);
    }
  }

  lemma {:induction false} ReleasedForever(s: Sys, run: seq<Sys>, steps: seq<Step>, i: nat, id: nat)
    requires RunFrom(s, run, steps) && i < |run| && Released(s, id) && !run[i].mangled
    ensures Released(run[i], id)
  {
    if i > 0 {
      assert run[i] == Apply(run[i - 1], steps[i - 1]);
      ReleasedForever(s, run, steps, i - 1, id);
      StepKeepsReleased(run[i - 1], steps[i - 1], id);
    }
  }

  lemma ReleasedReturnsOnlyFatal(s: Sys, id: nat)
    requires Released(s, id)
    ensures ReturnsOnlyFatal(s, id)
  {
    forall t | Reaches(s, t) && !t.mangled && id in t.returned ensures t.returned[id].Fatal? {
      var later: seq<Sys>, moves: seq<Step> :| RunFrom(s, later, moves) && later[|later| - 1] == t;
      ReleasedForever(s, later, moves, |later| - 1, id);
    }
  }

  /** A first call has been sent. */
  lemma FirstCallSent(call: Call) returns (s: Sys)
    ensures Reaches(ADMITTED, s) && s == ADMITTED.(client := Client(1, map[], None, true), toHub := [Request(0, call)],
                                                   waiting := {0}, calls := map[0 := call])
  {
    ReachesItself(ADMITTED);
    ReachesStep(ADMITTED, ADMITTED, Issue(call));
    s := Apply(ADMITTED, Issue(call));
    ReachesStep(ADMITTED, s, SendOk);
    s := Apply(s, SendOk);
  }

  /** The reader is waiting, and an event and the answer to the first call are in the stream. */
  lemma AnswerBehindEvent(call: Call, answer: Answer, data: Value) returns (s: Sys)
    ensures Reaches(ADMITTED, s) && s.toClient == [Event(data), Response(0, answer)] && s.waiting == {0}
    ensures CanRead(s) && s.client == Client(1, map[], None, true) && !s.mangled
  {
    s := FirstCallSent(call);
    ReachesStep(ADMITTED, s, ReaderTests);
    s := Apply(s, ReaderTests);
    ReachesStep(ADMITTED, s, HubEvent(data));
    s := Apply(s, HubEvent(data));
    ReachesStep(ADMITTED, s, HubRecv);
    s := Apply(s, HubRecv);
    ReachesStep(ADMITTED, s, HubDispatch(answer));
    s := Apply(s, HubDispatch(answer));
    ReachesStep(ADMITTED, s, HubSend);
    s := Apply(s, HubSend);
  }

  /** A second call fails in `send` on a good connection, and its error is recorded. */
  lemma SecondSendFails(s: Sys, call: Call, e: Exception) returns (t: Sys)
    requires Reaches(ADMITTED, s) && s.lock.Free? && s.connected && s.client.error.None?
    ensures Reaches(ADMITTED, t) && t.client == Overwritten(ErrorSet(Issued(s.client), e), e)
    ensures t == s.(client := t.client, returned := t.returned, calls := t.calls)
  {
    ReachesStep(ADMITTED, s, Issue(call));
    t := Apply(s, Issue(call));
    ReachesStep(ADMITTED, t, SendFails(e));
    t := Apply(t, SendFails(e));
    ReachesStep(ADMITTED, t, SendFailRecords);
    t := Apply(t, SendFailRecords);
  }

  /** A first call has been answered and its response published, but not collected. */
  lemma FirstCallAnswered(call: Call, data: Value) returns (s: Sys)
    ensures Reaches(ADMITTED, s) && s.lock.Free? && s.connected && s.client == Client(1, map[0 := Data(data)], None, true)
    ensures 0 in s.waiting
  {
    s := FirstCallSent(call);
    ReachesStep(ADMITTED, s, HubRecv);
    s := Apply(s, HubRecv);
    ReachesStep(ADMITTED, s, HubDispatch(Success(data)));
    s := Apply(s, HubDispatch(Success(data)));
    ReachesStep(ADMITTED, s, HubSend);
    s := Apply(s, HubSend);
    ReachesStep(ADMITTED, s, ReaderTests);
    s := Apply(s, ReaderTests);
    ReachesStep(ADMITTED, s, ReadResponse);
    s := Apply(s, ReadResponse);
  }

  /** A first call is waiting when an event is torn by a timeout. */
  lemma EventTorn(call: Call, data: Value) returns (s: Sys)
    ensures Reaches(ADMITTED, s) && s.reader.Testing? && s.client == Client(1, map[], None, true) && s.waiting == {0}
    ensures s.connected && s.torn && s.answered == map[]
  {
    s := FirstCallSent(call);
    ReachesStep(ADMITTED, s, HubEvent(data));
    s := Apply(s, HubEvent(data));
    ReachesStep(ADMITTED, s, ReaderTests);
    s := Apply(s, ReaderTests);
    ReachesStep(ADMITTED, s, Tear);
    s := Apply(s, Tear);
  }

  lemma {:induction false} RefusedRun(reason: string, run: seq<Sys>, steps: seq<Step>, i: nat)
    requires reason != "" && RunFrom(Refused(reason), run, steps) && i < |run| && !run[i].mangled
    ensures TurnedAway(run[i], reason)
  {
    if i > 0 {
      assert run[i] == Apply(run[i - 1], steps[i - 1]);
      RefusedRun(reason, run, steps, i - 1);
      StepKeepsTurnedAway(run[i - 1], steps[i - 1], reason);
    }
  }

  lemma RefusalCollected(reason: string) returns (t: Sys)
    requires reason != ""
    ensures Reaches(Refused(reason), t) && !t.mangled && 0 in t.returned && t.returned[0] == RpcError(reason)
  {
    var start := Refused(reason);
    var call := Call("session", "status", Messages.EMPTY_MAP);
    ReachesItself(start);
    ReachesStep(start, start, Issue(call));
    t := Apply(start, Issue(call));
    ReachesStep(start, t, SendOk);
    t := Apply(t, SendOk);
    ReachesStep(start, t, ReaderTests);
    t := Apply(t, ReaderTests);
    ReachesStep(start, t, ReadResponse);
    t := Apply(t, ReadResponse);
    ReachesStep(start, t, Collect(0));
    t := Apply(t, Collect(0));
  }

  // ---- step by step: what each single step keeps ------------------------------------------------

  lemma {:induction false} InRequestsAppend(ch: seq<Request>, r: Request, id: nat)
    ensures InRequests(ch + [r], id) == InRequests(ch, id) + One(r.id == id)
  {
    if ch == [] {
      assert ch + [r] == [r] && [r][1..] == [];
    } else {
      InRequestsAppend(ch[1..], r, id);
      assert (ch + [r])[1..] == ch[1..] + [r];
    }
  }

  lemma {:induction false} InResponsesAppend(ch: seq<Incoming>, m: Incoming, id: nat)
    ensures InResponses(ch + [m], id) == InResponses(ch, id) + One(m.Response? && m.id == id)
  {
    if ch == [] {
      assert ch + [m] == [m] && [m][1..] == [];
    } else {
      InResponsesAppend(ch[1..], m, id);
      assert (ch + [m])[1..] == ch[1..] + [m];
    }
  }

  lemma {:induction false} ResponseInChannel(ch: seq<Incoming>, k: nat)
    requires k < |ch| && ch[k].Response?
    ensures InResponses(ch, ch[k].id) > 0
  {
    if k > 0 {
      ResponseInChannel(ch[1..], k - 1);
    }
  }

  lemma CallerStepKeepsId(s: Sys, step: Step, id: nat)
    requires Located(s) && Enabled(s, step)
    requires step.Issue? || step.SendOk? || step.SendFails? || step.SendFailRecords? || step.Collect?
             || step.Close? || step.Disconnect?
    ensures LocatedId(Apply(s, step), id)
  {
    assert LocatedId(s, id);
    if step.SendOk? {
      InRequestsAppend(s.toHub, s.lock.req, id);
    }
  }

  lemma HubStepKeepsId(s: Sys, step: Step, id: nat)
    requires Located(s) && Enabled(s, step)
    requires step.HubRecv? || step.HubDispatch? || step.HubSend? || step.HubEvent? || step.HubEnds?
    ensures LocatedId(Apply(s, step), id)
  {
    assert LocatedId(s, id);
    match step
    case HubSend => InResponsesAppend(s.toClient, Response(s.hub.id, s.hub.answer), id);
    case HubEvent(d) => InResponsesAppend(s.toClient, Event(d), id);
    case _ =>
  }

  lemma ReadKeepsId(s: Sys, step: Step, id: nat)
    requires Located(s) && Enabled(s, step) && (step.ReadResponse? || step.ReadEvent? || step.Tear?)
    ensures LocatedId(Apply(s, step), id)
  {
    assert LocatedId(s, id);
  }

  lemma ReaderStepKeepsId(s: Sys, step: Step, id: nat)
    requires Located(s) && Enabled(s, step)
    requires step.ReaderFails? || step.ReaderRecords? || step.ReaderTests? || step.ReaderTimeout?
    ensures LocatedId(Apply(s, step), id)
  {
    var t := Apply(s, step);
    assert t.client.pending.Keys == s.client.pending.Keys;
    assert t.lock == s.lock && t.toHub == s.toHub && t.hub == s.hub && t.toClient == s.toClient;
    assert LocatedId(s, id);
  }

  lemma StepKeepsLocated(s: Sys, step: Step)
    requires Located(s) && Enabled(s, step) && !step.Garbage?
    ensures Located(Apply(s, step))
  {
    forall id: nat ensures LocatedId(Apply(s, step), id) {
      match step
      case HubRecv => HubStepKeepsId(s, step, id);
      case HubDispatch(_) => HubStepKeepsId(s, step, id);
      case HubSend => HubStepKeepsId(s, step, id);
      case HubEvent(_) => HubStepKeepsId(s, step, id);
      case HubEnds => HubStepKeepsId(s, step, id);
      case Tear => ReadKeepsId(s, step, id);
      case ReadResponse => ReadKeepsId(s, step, id);
      case ReadEvent => ReadKeepsId(s, step, id);
      case ReaderFails(_) => ReaderStepKeepsId(s, step, id);
      case ReaderRecords => ReaderStepKeepsId(s, step, id);
      case ReaderTests => ReaderStepKeepsId(s, step, id);
      case ReaderTimeout => ReaderStepKeepsId(s, step, id);
      case _ => CallerStepKeepsId(s, step, id);
    }
  }

  lemma DispatchKeepsTruthful(s: Sys, a: Answer)
    requires Located(s) && Truthful(s) && s.hub.Dispatching?
    ensures Truthful(Answered(s, a))
  {
    var id := s.hub.req.id;
    assert LocatedId(s, id);
    forall k | 0 <= k < |s.toClient| && s.toClient[k].Response? ensures s.toClient[k].id != id {
      ResponseInChannel(s.toClient, k);
    }
  }

  lemma HubRecvKeepsTruthful(s: Sys)
    requires Truthful(s) && Enabled(s, HubRecv)
    ensures Truthful(Apply(s, HubRecv))
  {
  }

  lemma IssueKeepsTruthful(s: Sys, call: Call)
    requires Truthful(s) && Enabled(s, Issue(call))
    ensures Truthful(Apply(s, Issue(call)))
  {
  }

  lemma SendKeepsTruthful(s: Sys)
    requires Truthful(s) && Enabled(s, SendOk)
    ensures Truthful(Apply(s, SendOk))
  {
  }

  lemma CollectKeepsTruthful(s: Sys, id: nat)
    requires Truthful(s) && id in s.client.pending
    ensures Truthful(Returned(s, id))
  {
  }

  lemma HubSendKeepsTruthful(s: Sys)
    requires Truthful(s) && Enabled(s, HubSend)
    ensures Truthful(Apply(s, HubSend))
  {
  }

  lemma HubEventKeepsTruthful(s: Sys, data: Value)
    requires Truthful(s) && Enabled(s, HubEvent(data))
    ensures Truthful(Apply(s, HubEvent(data)))
  {
  }

  lemma SendFailureKeepsTruthful(s: Sys, step: Step)
    requires Truthful(s) && Enabled(s, step) && (step.SendFails? || step.SendFailRecords?)
    ensures Truthful(Apply(s, step))
  {
  }

  lemma IdleKeepsTruthful(s: Sys, reader: Reader)
    requires Truthful(s) && !reader.Recording?
    ensures Truthful(s.(reader := reader))
  {
  }

  lemma ReaderFailureKeepsTruthful(s: Sys, e: Exception)
    requires Truthful(s)
    ensures Truthful(ReaderFailed(s, e))
  {
    if s.client.running {
    } else {
      IdleKeepsTruthful(s, Stopped);
    }
  }

  lemma ReaderRecordKeepsTruthful(s: Sys)
    requires Truthful(s) && s.reader.Recording?
    ensures Truthful(ReaderRecorded(s))
  {
  }

  lemma HubKeepsTruthful(s: Sys, step: Step)
    requires Located(s) && Truthful(s) && Enabled(s, step)
    requires step.HubRecv? || step.HubDispatch? || step.HubSend? || step.HubEvent? || step.HubEnds?
    ensures Truthful(Apply(s, step))
  {
    match step
    case HubDispatch(a) => DispatchKeepsTruthful(s, a);
    case HubRecv => HubRecvKeepsTruthful(s);
    case HubSend => HubSendKeepsTruthful(s);
    case HubEvent(d) => HubEventKeepsTruthful(s, d);
    case _ =>
  }

  lemma ReaderKeepsTruthful(s: Sys, step: Step)
    requires Truthful(s) && Enabled(s, step) && (step.ReadResponse? || step.ReadEvent? || step.Tear?)
    ensures Truthful(Apply(s, step))
  {
  }

  lemma ReaderMoveKeepsTruthful(s: Sys, step: Step)
    requires Truthful(s) && Enabled(s, step) && (step.ReaderTests? || step.ReaderTimeout?)
    ensures Truthful(Apply(s, step))
  {
    IdleKeepsTruthful(s, Apply(s, step).reader);
  }

  lemma StepKeepsTruthful(s: Sys, step: Step)
    requires Located(s) && Truthful(s) && Enabled(s, step) && !step.Garbage?
    ensures Truthful(Apply(s, step))
  {
    match step
    case Issue(call) => IssueKeepsTruthful(s, call);
    case SendOk => SendKeepsTruthful(s);
    case Collect(id) => CollectKeepsTruthful(s, id);
    case SendFails(_) => SendFailureKeepsTruthful(s, step);
    case SendFailRecords => SendFailureKeepsTruthful(s, step);
    case Close =>
    case Disconnect =>
    case HubDispatch(_) => HubKeepsTruthful(s, step);
    case HubRecv => HubKeepsTruthful(s, step);
    case HubSend => HubKeepsTruthful(s, step);
    case HubEvent(_) => HubKeepsTruthful(s, step);
    case HubEnds => HubKeepsTruthful(s, step);
    case ReaderFails(e) => ReaderFailureKeepsTruthful(s, e);
    case ReaderRecords => ReaderRecordKeepsTruthful(s);
    case ReaderTests => ReaderMoveKeepsTruthful(s, step);
    case ReaderTimeout => ReaderMoveKeepsTruthful(s, step);
    case _ => ReaderKeepsTruthful(s, step);
  }

  lemma StepKeepsSound(s: Sys, step: Step)
    requires (!s.mangled ==> Sound(s)) && Enabled(s, step)
    ensures !Apply(s, step).mangled ==> !s.mangled && Sound(Apply(s, step))
  {
    if !Apply(s, step).mangled {
      StepKeepsLocated(s, step);
      StepKeepsTruthful(s, step);
    }
  }

  lemma {:induction false} ResponseIdsAppend(ch: seq<Incoming>, m: Incoming)
    ensures ResponseIds(ch + [m]) == ResponseIds(ch) + if m.Response? then [m.id] else []
  {
    if ch == [] {
      assert ch + [m] == [m] && [m][1..] == [];
    } else {
      ResponseIdsAppend(ch[1..], m);
      assert (ch + [m])[1..] == ch[1..] + [m];
    }
  }

  lemma RequestMovesAlongLine(s: Sys, step: Step)
    requires Enabled(s, step) && (step.SendOk? || step.HubRecv?)
    ensures Line(Apply(s, step)) == Line(s)
  {
    var s' := Apply(s, step);
    if step.SendOk? {
      assert RequestIds(s'.toHub) == RequestIds(s.toHub) + [s.lock.req.id];
    } else {
      assert RequestIds(s.toHub) == [s.toHub[0].id] + RequestIds(s'.toHub);
    }
  }

  lemma HubSendsAlongLine(s: Sys, step: Step)
    requires Enabled(s, step) && (step.HubSend? || step.HubEvent?)
    ensures Line(Apply(s, step)) == Line(s)
  {
    var s' := Apply(s, step);
    ResponseIdsAppend(s.toClient, if step.HubSend? then Response(s.hub.id, s.hub.answer) else Event(step.data));
    assert s.published + s.lost + ResponseIds(s.toClient) + AtHubIds(s.hub)
        == s.published + s.lost + ResponseIds(s'.toClient) + AtHubIds(s'.hub);
  }

  lemma ReaderMovesAlongLine(s: Sys, step: Step)
    requires Enabled(s, step) && (step.ReadResponse? || step.ReadEvent? || step.Tear?) && s.lost == []
    ensures Line(Apply(s, step)) == Line(s)
  {
    var s' := Apply(s, step);
    assert s.published + s.lost + ResponseIds(s.toClient) == s'.published + s'.lost + ResponseIds(s'.toClient);
  }

  lemma StepMovesAlongLine(s: Sys, step: Step)
    requires Enabled(s, step) && !step.Issue? && !step.SendFailRecords? && (!s.torn ==> s.lost == [])
    ensures Line(Apply(s, step)) == Line(s)
  {
    if step.SendOk? || step.HubRecv? {
      RequestMovesAlongLine(s, step);
    } else if step.HubSend? || step.HubEvent? {
      HubSendsAlongLine(s, step);
    } else if step.ReadResponse? || step.ReadEvent? || step.Tear? {
      ReaderMovesAlongLine(s, step);
    }
  }

  lemma IssueKeepsInOrder(s: Sys, call: Call)
    requires InOrder(s) && Enabled(s, Issue(call))
    ensures InOrder(Apply(s, Issue(call)))
  {
    assert Line(Apply(s, Issue(call))) == Line(s) + [s.client.nextId];
  }

  lemma FailedSendKeepsInOrder(s: Sys)
    requires InOrder(s) && Enabled(s, SendFailRecords)
    ensures InOrder(Apply(s, SendFailRecords))
  {
    var s' := Apply(s, SendFailRecords);
    assert Line(s) == Line(s') + [s.lock.id];
    assert forall k :: 0 <= k < |Line(s')| ==> Line(s')[k] == Line(s)[k];
  }

  /** Nothing `InOrder` speaks of changes but by moving along the line. */
  lemma SameLineKeepsInOrder(s: Sys, t: Sys)
    requires InOrder(s) && Line(t) == Line(s) && KeepsRest(s, t)
    ensures InOrder(t)
  {
  }

  lemma HubKeepsRest(s: Sys, step: Step)
    requires (s.lock.SendRaised? ==> s.client.error.Some?) && (!s.torn ==> s.lost == [])
    requires Enabled(s, step) && ByHub(step)
    ensures KeepsRest(s, Apply(s, step))
  {
  }

  lemma ReadKeepsRest(s: Sys, step: Step)
    requires (s.lock.SendRaised? ==> s.client.error.Some?) && (!s.torn ==> s.lost == [])
    requires Enabled(s, step) && (step.ReadResponse? || step.ReadEvent? || step.Tear? || step.Garbage?)
    ensures KeepsRest(s, Apply(s, step))
  {
    assert Apply(s, step).lock == s.lock;
  }

  lemma ReaderKeepsRest(s: Sys, step: Step)
    requires (s.lock.SendRaised? ==> s.client.error.Some?) && (!s.torn ==> s.lost == [])
    requires Enabled(s, step) && ByReader(step)
    requires !step.ReadResponse? && !step.ReadEvent? && !step.Tear? && !step.Garbage?
    ensures KeepsRest(s, Apply(s, step))
  {
    assert Apply(s, step).lock == s.lock;
  }

  lemma CallerKeepsRest(s: Sys, step: Step)
    requires (s.lock.SendRaised? ==> s.client.error.Some?) && (!s.torn ==> s.lost == [])
    requires Enabled(s, step) && !ByHub(step) && !ByReader(step) && !step.Issue? && !step.SendFailRecords?
    ensures KeepsRest(s, Apply(s, step))
  {
  }

  lemma StepKeepsInOrder(s: Sys, step: Step)
    requires InOrder(s) && Enabled(s, step)
    ensures InOrder(Apply(s, step))
  {
    if step.Issue? {
      IssueKeepsInOrder(s, step.call);
    } else if step.SendFailRecords? {
      FailedSendKeepsInOrder(s);
    } else {
      StepMovesAlongLine(s, step);
      if ByHub(step) {
        HubKeepsRest(s, step);
      } else if step.ReadResponse? || step.ReadEvent? || step.Tear? || step.Garbage? {
        ReadKeepsRest(s, step);
      } else if ByReader(step) {
        ReaderKeepsRest(s, step);
      } else {
        CallerKeepsRest(s, step);
      }
      SameLineKeepsInOrder(s, Apply(s, step));
    }
  }

  lemma HubKeepsUnrecoverable(s: Sys, step: Step, id: nat)
    requires LocatedId(s, id) && Enabled(s, step) && ByHub(step) && id in s.waiting && !Recoverable(s, id)
    ensures !Recoverable(Apply(s, step), id)
  {
    if step.HubEvent? {
      InResponsesAppend(s.toClient, Event(step.data), id);
    } else if step.HubSend? {
      InResponsesAppend(s.toClient, Response(s.hub.id, s.hub.answer), id);
    }
  }

  lemma ReaderKeepsUnrecoverable(s: Sys, step: Step, id: nat)
    requires LocatedId(s, id) && Enabled(s, step) && ByReader(step) && !step.Garbage?
    requires id in s.waiting && !Recoverable(s, id)
    ensures !Recoverable(Apply(s, step), id)
  {
  }

  lemma CallerKeepsUnrecoverable(s: Sys, step: Step, id: nat)
    requires LocatedId(s, id) && Enabled(s, step) && !ByHub(step) && !ByReader(step)
    requires id in s.waiting && !Recoverable(s, id)
    ensures !Recoverable(Apply(s, step), id) && id in Apply(s, step).waiting
  {
  }

  lemma StepKeepsUnrecoverable(s: Sys, step: Step, id: nat)
    requires LocatedId(s, id) && Enabled(s, step) && !step.Garbage? && id in s.waiting && !Recoverable(s, id)
    ensures id in Apply(s, step).waiting && !Recoverable(Apply(s, step), id)
  {
    if ByHub(step) {
      HubKeepsUnrecoverable(s, step, id);
    } else if ByReader(step) {
      ReaderKeepsUnrecoverable(s, step, id);
    } else {
      CallerKeepsUnrecoverable(s, step, id);
    }
  }

  lemma StepKeepsReleased(s: Sys, step: Step, id: nat)
    requires Released(s, id) && Enabled(s, step) && !step.Garbage?
    ensures Released(Apply(s, step), id)
  {
    StepKeepsLocated(s, step);
    assert LocatedId(s, id);
  }

  lemma ErrorStays(s: Sys, step: Step)
    requires s.client.error.Some? && Enabled(s, step)
    ensures SameIds(s, Apply(s, step))
  {
    if ByHub(step) {
      assert Apply(s, step).client == s.client;
    } else if ByReader(step) {
      ErrorStaysWithReader(s, step);
    }
  }

  lemma ErrorStaysWithReader(s: Sys, step: Step)
    requires s.client.error.Some? && Enabled(s, step) && ByReader(step)
    ensures SameIds(s, Apply(s, step))
  {
  }

  lemma StepKeepsAtRest(s: Sys, step: Step)
    requires AtRest(s) && Enabled(s, step)
    ensures AtRest(Apply(s, step)) && Apply(s, step).client.nextId == s.client.nextId
    ensures !step.Issue? && !step.SendOk? && !step.ReadResponse? && !step.ReadEvent? && !step.Tear? && !step.Garbage?
  {
  }

  lemma DisconnectRests(s: Sys)
    requires Enabled(s, Disconnect)
    ensures AtRest(Apply(s, Disconnect)) && Apply(s, Disconnect).client == s.client
  {
  }

  lemma HubStepKeepsOver(s: Sys, step: Step)
    requires s.hub.Over? && Enabled(s, step) && ByHub(step)
    ensures step.HubEvent? && Apply(s, step).hub == s.hub
  {
  }

  lemma ReadKeepsHub(s: Sys, step: Step)
    requires Enabled(s, step) && (step.ReadResponse? || step.Tear? || step.Garbage?)
    ensures Apply(s, step).hub == s.hub
  {
  }

  lemma ReaderStepKeepsHub(s: Sys, step: Step)
    requires Enabled(s, step) && ByReader(step)
    ensures Apply(s, step).hub == s.hub
  {
    if step.ReadResponse? || step.Tear? || step.Garbage? {
      ReadKeepsHub(s, step);
    }
  }

  lemma CallerStepKeepsHub(s: Sys, step: Step)
    requires Enabled(s, step) && !ByHub(step) && !ByReader(step)
    ensures Apply(s, step).hub == s.hub
  {
  }

  lemma StepKeepsOver(s: Sys, step: Step)
    requires s.hub.Over? && Enabled(s, step)
    ensures Apply(s, step).hub == s.hub
  {
    if ByHub(step) {
      HubStepKeepsOver(s, step);
    } else if ByReader(step) {
      ReaderStepKeepsHub(s, step);
    } else {
      CallerStepKeepsHub(s, step);
    }
  }

  lemma HubKeepsTurnedAway(s: Sys, step: Step, reason: string)
    requires TurnedAway(s, reason) && Enabled(s, step) && ByHub(step)
    ensures TurnedAway(Apply(s, step), reason)
  {
  }

  lemma ReaderKeepsTurnedAway(s: Sys, step: Step, reason: string)
    requires reason != "" && TurnedAway(s, reason) && Enabled(s, step) && ByReader(step) && !step.Garbage?
    ensures TurnedAway(Apply(s, step), reason)
  {
    if step.ReadResponse? || step.ReadEvent? || step.Tear? {
      ReadKeepsTurnedAway(s, step, reason);
    }
  }

  lemma ReadKeepsTurnedAway(s: Sys, step: Step, reason: string)
    requires reason != "" && TurnedAway(s, reason) && Enabled(s, step) && (step.ReadResponse? || step.ReadEvent? || step.Tear?)
    ensures TurnedAway(Apply(s, step), reason)
  {
  }

  lemma CallerKeepsTurnedAway(s: Sys, step: Step, reason: string)
    requires TurnedAway(s, reason) && Enabled(s, step) && !ByHub(step) && !ByReader(step)
    ensures TurnedAway(Apply(s, step), reason)
  {
  }

  lemma StepKeepsTurnedAway(s: Sys, step: Step, reason: string)
    requires reason != "" && TurnedAway(s, reason) && Enabled(s, step) && !step.Garbage?
    ensures TurnedAway(Apply(s, step), reason)
  {
    if ByHub(step) {
      HubKeepsTurnedAway(s, step, reason);
    } else if ByReader(step) {
      ReaderKeepsTurnedAway(s, step, reason);
    } else {
      CallerKeepsTurnedAway(s, step, reason);
    }
  }
}
