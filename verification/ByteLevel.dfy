/**
 * Client and hub joined by two pipes of bytes instead of two queues of
 * messages.  Every run of this system, as long as no timeout tears a frame,
 * is a run of the message-level system, so what is proved there holds here.
 */
module ByteLevel {
  import opened Prelude
  import opened Messages
  import opened Framing
  import opened Pipe
  import R = RpcMultiplex

  // ---- what calls, answers and events look like as messages --------------------------

  function CallMessage(r: R.Request): Message {
    Messages.Request(Int(r.id), Str(r.call.domain), Str(r.call.op), r.call.args)
  }

  function ToRequest(m: Message): R.Request {
    match m
    case Request(Int(id), Str(domain), Str(op), args) => R.Request(if id >= 0 then id else 0, R.Call(domain, op, args))
    case _ => R.Request(0, R.Call("", "", Nil))
  }

  function AnswerMessage(id: nat, a: R.Answer): Message {
    match a
    case Success(d) => Messages.Response(Int(id), OK, d, Nil)
    case Failure(e) => Messages.Response(Int(id), ERROR, Nil, if e.Some? then Str(e.value) else Nil)
  }

  function ToIncoming(m: Message): R.Incoming {
    match m
    case Response(Int(id), status, d, e) =>
      R.Incoming.Response(if id >= 0 then id else 0,
                          if status == OK then R.Success(d) else R.Failure(if e.Str? then Some(e.s) else None))
    case Event(_, _, _, d) => R.Incoming.Event(d)
    case _ => R.Incoming.Event(Nil)
  }

  /** `call` passes its keyword arguments, a dictionary. */
  predicate IsCall(m: Message) {
    m.Request? && m == CallMessage(ToRequest(m)) && m.args.Map?
  }

  predicate IsPush(m: Message) {
    m.Event? || (m.Response? && ToIncoming(m).Response? && m == AnswerMessage(ToIncoming(m).id, ToIncoming(m).answer))
  }

  lemma CallSurvivesTheWire(r: R.Request)
    requires r.call.args.Map?
    ensures IsCall(CallMessage(r)) && ToRequest(CallMessage(r)) == r && Normalised(CallMessage(r)) == CallMessage(r)
  {
  }

  lemma AnswerSurvivesTheWire(id: nat, a: R.Answer)
    ensures IsPush(AnswerMessage(id, a)) && ToIncoming(AnswerMessage(id, a)) == R.Incoming.Response(id, a)
  {
  }

  function Requests(ms: seq<Message>): seq<R.Request> {
    seq(|ms|, i requires 0 <= i < |ms| => ToRequest(ms[i]))
  }

  function Incomings(ms: seq<Message>): seq<R.Incoming> {
    seq(|ms|, i requires 0 <= i < |ms| => ToIncoming(ms[i]))
  }

  // ---- the system --------------------------------------------------------------------------

  /** `ctl` is everything but the channels, which its own queues leave empty. */
  datatype Wired = Wired(ctl: R.Sys, up: Pipe, down: Pipe)

  const START: Wired := Wired(R.ADMITTED, EMPTY, EMPTY)

  datatype Step =
    | Control(step: R.Step)                 // a step that touches neither channel
    | UpAcquire                             // the caller takes the send lock ...
    | UpWrite(n: nat)                       // ... and writes its frame piece by piece
    | UpRelease
    | HubTake(n: nat)
    | HubDeliver
    | ReplyAcquire
    | EventAcquire(sender: nat, m: Message) // a subscription thread
    | DownWrite(n: nat)
    | DownRelease
    | ReaderTake(n: nat)
    | ReaderDeliver

  predicate IsControl(step: R.Step) {
    || step.Issue? || step.SendFails? || step.SendFailRecords? || step.Collect? || step.Close? || step.Disconnect?
    || step.HubDispatch? || step.HubEnds?
    || step.ReaderTests? || step.ReaderTimeout? || step.ReaderFails? || step.ReaderRecords?
  }

  /** The library is trusted with the message: it packs, fits, and comes back. */
  predicate Sendable(p: Packer, m: Message) {
    Encodable(p, m) && Survives(p, m)
  }

  const HUB_LOOP: nat := 0

  predicate Enabled(p: Packer, c: Wired, step: Step) {
    match step
    case Control(s) =>
      && IsControl(s) && R.Enabled(c.ctl, s)
      && (s.ReaderTimeout? ==> c.down.got == [])  // no torn frame
      && (s.Issue? ==> s.call.args.Map?)
    case UpAcquire => c.ctl.lock.Sending? && c.up.channel.holder.None? && Sendable(p, CallMessage(c.ctl.lock.req))
    case UpWrite(n) => c.ctl.lock.Sending? && CanWrite(c.up, n)
    case UpRelease => CanRelease(c.up)
    case HubTake(n) => c.ctl.admitted && c.ctl.hub.Idle? && CanTake(c.up, n)
    case HubDeliver => c.ctl.admitted && c.ctl.hub.Idle? && HasFrame(c.up)
    case ReplyAcquire =>
      c.ctl.hub.Replying? && c.down.channel.holder.None? && Sendable(p, AnswerMessage(c.ctl.hub.id, c.ctl.hub.answer))
    case EventAcquire(sender, m) => sender != HUB_LOOP && m.Event? && c.down.channel.holder.None? && Sendable(p, m)
    case DownWrite(n) => CanWrite(c.down, n) && (c.down.channel.holder.value.sender == HUB_LOOP ==> c.ctl.hub.Replying?)
    case DownRelease => CanRelease(c.down)
    case ReaderTake(n) => R.CanRead(c.ctl) && CanTake(c.down, n)
    case ReaderDeliver => R.CanRead(c.ctl) && HasFrame(c.down)
  }

  predicate Last(q: Pipe, n: nat) {
    q.channel.holder.Some? && n == |q.channel.holder.value.unsent|
  }

  /** The hub's loop with a decoded frame: requests are dispatched, other messages ignored, errors end it. */
  function HubGets(s: R.Sys, r: Result<Message, FrameError>): R.Sys {
    match r
    case Ok(m) => if m.Request? then s.(hub := R.Dispatching(ToRequest(m))) else s
    case Err(_) => s.(hub := R.Over(None))
  }

  /** The reader's loop with a decoded frame. */
  function ReaderGets(s: R.Sys, r: Result<Message, FrameError>): R.Sys {
    match r
    case Err(_) => R.ReaderFailed(s, R.Exception("frame"))
    case Ok(m) =>
      if m.Request? then s.(reader := R.Testing)
      else
        match ToIncoming(m)
        case Response(id, a) =>
          s.(client := R.Dispatched(s.client, id, a), published := s.published + [id], reader := R.Testing)
        case Event(_) => s.(reader := R.Testing)
  }

  function Apply(p: Packer, c: Wired, step: Step): Wired
    requires Enabled(p, c, step)
  {
    match step
    case Control(s) => c.(ctl := R.Apply(c.ctl, s))
    case UpAcquire => c.(up := Acquired(p, c.up, 0, CallMessage(c.ctl.lock.req)))
    case UpWrite(n) => AfterUpWrite(c, n)
    case UpRelease => c.(up := ReleasedLock(c.up))
    case HubTake(n) => c.(up := Took(c.up, n))
    case HubDeliver => c.(up := HandedOut(c.up), ctl := HubGets(c.ctl, DecodePayload(p, c.up.got[HEADER_SIZE..])))
    case ReplyAcquire => c.(down := Acquired(p, c.down, HUB_LOOP, AnswerMessage(c.ctl.hub.id, c.ctl.hub.answer)))
    case EventAcquire(sender, m) => c.(down := Acquired(p, c.down, sender, m))
    case DownWrite(n) => AfterDownWrite(c, n)
    case DownRelease => c.(down := ReleasedLock(c.down))
    case ReaderTake(n) => c.(down := Took(c.down, n))
    case ReaderDeliver => c.(down := HandedOut(c.down), ctl := ReaderGets(c.ctl, DecodePayload(p, c.down.got[HEADER_SIZE..])))
  }

  // ---- what the system keeps ---------------------------------------------------------------------

  function LastOf(q: Pipe): Message
    requires q.channel.log != []
  {
    q.channel.log[|q.channel.log| - 1]
  }

  /** A frame partly written to the hub is that of the caller at work, or was given up with an error. */
  predicate UpLinked(c: Wired) {
    Unsent(c.up.channel) != [] ==>
      && c.up.channel.log != []
      && (c.ctl.lock.Sending? || c.ctl.client.error.Some?)
      && (c.ctl.lock.Sending? ==> LastOf(c.up) == CallMessage(c.ctl.lock.req))
  }

  /** A frame partly written to the client is an event, or the answer the hub's loop is at. */
  predicate DownLinked(c: Wired) {
    Unsent(c.down.channel) != [] ==>
      && c.down.channel.log != []
      && if c.down.channel.holder.value.sender != HUB_LOOP then LastOf(c.down).Event?
         else c.ctl.hub.Over? || (c.ctl.hub.Replying? && LastOf(c.down) == AnswerMessage(c.ctl.hub.id, c.ctl.hub.answer))
  }

  ghost predicate CtlOk(s: R.Sys) {
    s.toHub == [] && s.toClient == [] && !s.torn && !s.mangled && (s.lock.Sending? ==> s.lock.req.call.args.Map?)
  }

  ghost predicate UpOk(p: Packer, q: Pipe) {
    PipeOk(p, q) && forall k :: 0 <= k < |q.channel.log| ==> IsCall(q.channel.log[k])
  }

  ghost predicate DownOk(p: Packer, q: Pipe) {
    PipeOk(p, q) && forall k :: 0 <= k < |q.channel.log| ==> IsPush(q.channel.log[k])
  }

  ghost predicate ByteOk(p: Packer, c: Wired) {
    CtlOk(c.ctl) && UpOk(p, c.up) && DownOk(p, c.down) && UpLinked(c) && DownLinked(c)
  }

  /** The message-level state: what is written in full and not yet handed out is in the queues. */
  function With(s: R.Sys, up: seq<Message>, down: seq<Message>): R.Sys {
    s.(toHub := Requests(up), toClient := Incomings(down))
  }

  ghost function Abs(p: Packer, c: Wired): R.Sys
    requires ByteOk(p, c)
  {
    With(c.ctl, Queue(c.up), Queue(c.down))
  }

  /** Either nothing happens at the message level, or exactly the step named. */
  ghost predicate Refines(s: R.Sys, t: R.Sys, step: Option<R.Step>) {
    match step
    case None => t == s
    case Some(a) => R.Enabled(s, a) && t == R.Apply(s, a)
  }

  // ---- step by step ------------------------------------------------------------------------------------

  lemma CallerCommutes(s: R.Sys, step: R.Step, up: seq<Message>, down: seq<Message>)
    requires IsControl(step) && !R.ByHub(step) && !R.ByReader(step) && R.Enabled(s, step)
    ensures R.Enabled(With(s, up, down), step) && R.Apply(With(s, up, down), step) == With(R.Apply(s, step), up, down)
  {
  }

  lemma HubCommutes(s: R.Sys, step: R.Step, up: seq<Message>, down: seq<Message>)
    requires IsControl(step) && R.ByHub(step) && R.Enabled(s, step)
    ensures R.Enabled(With(s, up, down), step) && R.Apply(With(s, up, down), step) == With(R.Apply(s, step), up, down)
  {
  }

  lemma ReaderCommutes(s: R.Sys, step: R.Step, up: seq<Message>, down: seq<Message>)
    requires IsControl(step) && R.ByReader(step) && R.Enabled(s, step)
    ensures R.Enabled(With(s, up, down), step) && R.Apply(With(s, up, down), step) == With(R.Apply(s, step), up, down)
  {
  }

  lemma ControlCommutes(s: R.Sys, step: R.Step, up: seq<Message>, down: seq<Message>)
    requires IsControl(step) && R.Enabled(s, step)
    ensures R.Enabled(With(s, up, down), step) && R.Apply(With(s, up, down), step) == With(R.Apply(s, step), up, down)
  {
    if R.ByHub(step) {
      HubCommutes(s, step, up, down);
    } else if R.ByReader(step) {
      ReaderCommutes(s, step, up, down);
    } else {
      CallerCommutes(s, step, up, down);
    }
  }

  /** What the links need while the channels stay as they are. */
  lemma LinksKept(c: Wired, t: Wired)
    requires UpLinked(c) && DownLinked(c) && t.up.channel == c.up.channel && t.down.channel == c.down.channel
    requires c.ctl.client.error.Some? ==> t.ctl.client.error.Some?
    requires t.ctl.lock.Sending? ==> t.ctl.lock == c.ctl.lock || (c.ctl.lock.Free? && c.ctl.client.error.None?)
    requires c.ctl.lock.Sending? ==> t.ctl.lock == c.ctl.lock || t.ctl.client.error.Some?
    requires t.ctl.hub == c.ctl.hub || t.ctl.hub.Over? || c.ctl.hub.Dispatching? || c.ctl.hub.Idle?
    ensures UpLinked(t) && DownLinked(t)
  {
  }

  lemma ControlRefines(p: Packer, c: Wired, s: R.Step)
    requires ByteOk(p, c) && Enabled(p, c, Control(s))
    ensures var t := Apply(p, c, Control(s)); ByteOk(p, t) && Refines(Abs(p, c), Abs(p, t), Some(s))
  {
    LinksKept(c, c.(ctl := R.Apply(c.ctl, s)));
    ControlCommutes(c.ctl, s, Queue(c.up), Queue(c.down));
  }

  lemma UpAcquireRefines(p: Packer, c: Wired)
    requires ByteOk(p, c) && Enabled(p, c, UpAcquire)
    ensures var t := Apply(p, c, UpAcquire); ByteOk(p, t) && Refines(Abs(p, c), Abs(p, t), None)
  {
    var m := CallMessage(c.ctl.lock.req);
    AcquireKeepsQueue(p, c.up, 0, m);
    CallSurvivesTheWire(c.ctl.lock.req);
  }

  function CallSent(s: R.Sys): R.Sys
    requires s.lock.Sending?
  {
    s.(lock := R.Free, waiting := s.waiting + {s.lock.req.id})
  }

  lemma LastByteOfCall(s: R.Sys, up: seq<Message>, down: seq<Message>)
    requires CtlOk(s) && s.lock.Sending?
    ensures CtlOk(CallSent(s)) && R.Enabled(With(s, up, down), R.SendOk)
    ensures R.Apply(With(s, up, down), R.SendOk) == With(CallSent(s), up + [CallMessage(s.lock.req)], down)
  {
    var m := CallMessage(s.lock.req);
    CallSurvivesTheWire(s.lock.req);
    assert Requests(up + [m]) == Requests(up) + [ToRequest(m)];
  }

  function AfterUpWrite(c: Wired, n: nat): Wired
    requires c.ctl.lock.Sending? && CanWrite(c.up, n)
  {
    c.(up := Wrote(c.up, n), ctl := if Last(c.up, n) then CallSent(c.ctl) else c.ctl)
  }

  lemma UpWriteKeepsLinks(c: Wired, n: nat)
    requires UpLinked(c) && DownLinked(c) && c.ctl.lock.Sending? && CanWrite(c.up, n)
    ensures UpLinked(AfterUpWrite(c, n)) && DownLinked(AfterUpWrite(c, n))
  {
    var t := AfterUpWrite(c, n);
    assert t.up.channel.log == c.up.channel.log;
    assert Last(c.up, n) <==> Unsent(t.up.channel) == [];
  }

  lemma UpWriteRefines(p: Packer, c: Wired, n: nat)
    requires ByteOk(p, c) && Enabled(p, c, UpWrite(n))
    ensures var t := Apply(p, c, UpWrite(n));
      ByteOk(p, t) && Refines(Abs(p, c), Abs(p, t), if Last(c.up, n) then Some(R.SendOk) else None)
  {
    WriteQueues(p, c.up, n);
    UpWriteKeepsLinks(c, n);
    if Last(c.up, n) {
      LastByteOfCall(c.ctl, Queue(c.up), Queue(c.down));
    } else {
      assert Queue(c.up) + [] == Queue(c.up);
    }
  }

  lemma LockReleaseRefines(p: Packer, c: Wired, step: Step)
    requires ByteOk(p, c) && Enabled(p, c, step) && (step.UpRelease? || step.DownRelease?)
    ensures var t := Apply(p, c, step); ByteOk(p, t) && Refines(Abs(p, c), Abs(p, t), None)
  {
    if step.UpRelease? {
      ReleaseKeepsQueue(p, c.up);
    } else {
      ReleaseKeepsQueue(p, c.down);
    }
  }

  lemma TakeRefines(p: Packer, c: Wired, step: Step)
    requires ByteOk(p, c) && Enabled(p, c, step) && (step.HubTake? || step.ReaderTake?)
    ensures var t := Apply(p, c, step); ByteOk(p, t) && Refines(Abs(p, c), Abs(p, t), None)
  {
    match step
    case HubTake(n) =>
      TakeKeepsQueue(p, c.up, n);
      LinksKept(c, c.(up := Took(c.up, n)));
    case ReaderTake(n) =>
      TakeKeepsQueue(p, c.down, n);
      LinksKept(c, c.(down := Took(c.down, n)));
  }

  lemma HubGetsCall(s: R.Sys, m: Message, up: seq<Message>, down: seq<Message>)
    requires CtlOk(s) && IsCall(m) && s.admitted && s.hub.Idle?
    ensures CtlOk(HubGets(s, Ok(m))) && R.Enabled(With(s, [m] + up, down), R.HubRecv)
    ensures R.Apply(With(s, [m] + up, down), R.HubRecv) == With(HubGets(s, Ok(m)), up, down)
  {
    assert Requests([m] + up) == [ToRequest(m)] + Requests(up);
  }

  lemma HubDeliverRefines(p: Packer, c: Wired)
    requires ByteOk(p, c) && Enabled(p, c, HubDeliver)
    ensures var t := Apply(p, c, HubDeliver); ByteOk(p, t) && Refines(Abs(p, c), Abs(p, t), Some(R.HubRecv))
  {
    ReceiveTakesFirst(p, c.up);
    var queue := Queue(c.up);
    assert IsCall(queue[0]);
    CallSurvivesTheWire(ToRequest(queue[0]));
    HubGetsCall(c.ctl, queue[0], queue[1..], Queue(c.down));
    LinksKept(c, c.(up := HandedOut(c.up), ctl := HubGets(c.ctl, Ok(queue[0]))));
    assert [queue[0]] + queue[1..] == queue;
  }

  lemma DownAcquireRefines(p: Packer, c: Wired, step: Step)
    requires ByteOk(p, c) && Enabled(p, c, step) && (step.ReplyAcquire? || step.EventAcquire?)
    ensures var t := Apply(p, c, step); ByteOk(p, t) && Refines(Abs(p, c), Abs(p, t), None)
  {
    if step.ReplyAcquire? {
      AcquireKeepsQueue(p, c.down, HUB_LOOP, AnswerMessage(c.ctl.hub.id, c.ctl.hub.answer));
      AnswerSurvivesTheWire(c.ctl.hub.id, c.ctl.hub.answer);
    } else {
      AcquireKeepsQueue(p, c.down, step.sender, step.m);
    }
  }

  function Pushed(c: Wired, n: nat): Option<R.Step>
    requires CanWrite(c.down, n) && c.down.channel.log != []
  {
    if !Last(c.down, n) then None
    else if c.down.channel.holder.value.sender == HUB_LOOP then Some(R.HubSend)
    else if LastOf(c.down).Event? then Some(R.HubEvent(LastOf(c.down).data))
    else None
  }

  lemma LastByteOfAnswer(s: R.Sys, up: seq<Message>, down: seq<Message>)
    requires CtlOk(s) && s.hub.Replying?
    ensures var m, t := AnswerMessage(s.hub.id, s.hub.answer), s.(hub := R.Idle);
      CtlOk(t) && R.Enabled(With(s, up, down), R.HubSend)
      && R.Apply(With(s, up, down), R.HubSend) == With(t, up, down + [m])
  {
    var m := AnswerMessage(s.hub.id, s.hub.answer);
    AnswerSurvivesTheWire(s.hub.id, s.hub.answer);
    assert Incomings(down + [m]) == Incomings(down) + [ToIncoming(m)];
  }

  function AfterDownWrite(c: Wired, n: nat): Wired
    requires CanWrite(c.down, n)
  {
    c.(down := Wrote(c.down, n),
       ctl := if Last(c.down, n) && c.down.channel.holder.value.sender == HUB_LOOP then c.ctl.(hub := R.Idle) else c.ctl)
  }

  lemma DownWriteOk(p: Packer, c: Wired, n: nat)
    requires ByteOk(p, c) && Enabled(p, c, DownWrite(n))
    ensures c.down.channel.log != [] && ByteOk(p, AfterDownWrite(c, n))
    ensures Queue(AfterDownWrite(c, n).down) == Queue(c.down) + if Last(c.down, n) then [LastOf(c.down)] else []
  {
    WriteQueues(p, c.down, n);
  }

  lemma AnswerWritten(p: Packer, c: Wired, n: nat)
    requires ByteOk(p, c) && Enabled(p, c, DownWrite(n)) && Last(c.down, n)
    requires c.down.channel.holder.value.sender == HUB_LOOP
    ensures ByteOk(p, AfterDownWrite(c, n)) && Refines(Abs(p, c), Abs(p, AfterDownWrite(c, n)), Some(R.HubSend))
  {
    DownWriteOk(p, c, n);
    LastByteOfAnswer(c.ctl, Queue(c.up), Queue(c.down));
  }

  lemma EventWritten(p: Packer, c: Wired, n: nat)
    requires ByteOk(p, c) && Enabled(p, c, DownWrite(n)) && Last(c.down, n)
    requires c.down.channel.holder.value.sender != HUB_LOOP
    ensures c.down.channel.log != [] && LastOf(c.down).Event?
    ensures ByteOk(p, AfterDownWrite(c, n))
    ensures Refines(Abs(p, c), Abs(p, AfterDownWrite(c, n)), Some(R.HubEvent(LastOf(c.down).data)))
  {
    DownWriteOk(p, c, n);
  }

  lemma DownWriteRefines(p: Packer, c: Wired, n: nat)
    requires ByteOk(p, c) && Enabled(p, c, DownWrite(n))
    ensures c.down.channel.log != []
    ensures var t := AfterDownWrite(c, n); ByteOk(p, t) && Refines(Abs(p, c), Abs(p, t), Pushed(c, n))
  {
    DownWriteOk(p, c, n);
    if !Last(c.down, n) {
      assert Queue(c.down) + [] == Queue(c.down);
    } else if c.down.channel.holder.value.sender == HUB_LOOP {
      AnswerWritten(p, c, n);
    } else {
      EventWritten(p, c, n);
    }
  }

  function Reading(m: Message): R.Step {
    if ToIncoming(m).Response? then R.ReadResponse else R.ReadEvent
  }

  lemma ReaderGetsPush(s: R.Sys, m: Message, up: seq<Message>, down: seq<Message>)
    requires CtlOk(s) && IsPush(m) && R.CanRead(s)
    ensures CtlOk(ReaderGets(s, Ok(m))) && R.Enabled(With(s, up, [m] + down), Reading(m))
    ensures R.Apply(With(s, up, [m] + down), Reading(m)) == With(ReaderGets(s, Ok(m)), up, down)
  {
    assert Incomings([m] + down) == [ToIncoming(m)] + Incomings(down);
    assert Incomings([m] + down)[1..] == Incomings(down);
  }

  lemma ReaderDeliverRefines(p: Packer, c: Wired)
    requires ByteOk(p, c) && Enabled(p, c, ReaderDeliver)
    ensures Queue(c.down) != []
    ensures var t := Apply(p, c, ReaderDeliver); ByteOk(p, t) && Refines(Abs(p, c), Abs(p, t), Some(Reading(Queue(c.down)[0])))
  {
    ReceiveTakesFirst(p, c.down);
    var queue := Queue(c.down);
    assert IsPush(queue[0]) && Normalised(queue[0]) == queue[0];
    ReaderGetsPush(c.ctl, queue[0], Queue(c.up), queue[1..]);
    LinksKept(c, c.(down := HandedOut(c.down), ctl := ReaderGets(c.ctl, Ok(queue[0]))));
    assert [queue[0]] + queue[1..] == queue;
  }

  /** What a byte-level step is at the message level. */
  ghost function Shadow(p: Packer, c: Wired, step: Step): Option<R.Step>
    requires ByteOk(p, c) && Enabled(p, c, step)
  {
    match step
    case Control(s) => Some(s)
    case UpWrite(n) => if Last(c.up, n) then Some(R.SendOk) else None
    case HubDeliver => Some(R.HubRecv)
    case DownWrite(n) => DownWriteRefines(p, c, n); Pushed(c, n)
    case ReaderDeliver =>
      ReaderDeliverRefines(p, c);
      Some(Reading(Queue(c.down)[0]))
    case _ => None
  }

  /** Every byte-level step is a message-level step, or none: the bytes add nothing and lose nothing. */
  lemma StepRefines(p: Packer, c: Wired, step: Step)
    requires ByteOk(p, c) && Enabled(p, c, step)
    ensures ByteOk(p, Apply(p, c, step))
    ensures Refines(Abs(p, c), Abs(p, Apply(p, c, step)), Shadow(p, c, step))
  {
    match step
    case Control(s) => ControlRefines(p, c, s);
    case UpAcquire => UpAcquireRefines(p, c);
    case UpWrite(n) => UpWriteRefines(p, c, n);
    case UpRelease => LockReleaseRefines(p, c, step);
    case HubTake(_) => TakeRefines(p, c, step);
    case HubDeliver => HubDeliverRefines(p, c);
    case ReplyAcquire => DownAcquireRefines(p, c, step);
    case EventAcquire(_, _) => DownAcquireRefines(p, c, step);
    case DownWrite(n) => DownWriteRefines(p, c, n);
    case DownRelease => LockReleaseRefines(p, c, step);
    case ReaderTake(_) => TakeRefines(p, c, step);
    case ReaderDeliver => ReaderDeliverRefines(p, c);
  }

  // ---- whole runs -----------------------------------------------------------------------------------------

  ghost predicate ByteRun(p: Packer, run: seq<Wired>, steps: seq<Step>) {
    && |run| == |steps| + 1 && run[0] == START
    && forall i :: 0 <= i < |steps| ==> Enabled(p, run[i], steps[i]) && run[i + 1] == Apply(p, run[i], steps[i])
  }

  /**
   * Refinement: whatever the senders' writes are split into and however the
   * receivers chunk, every state of a byte-level run is, seen through its
   * pipes, a state of a run of the message-level system.
   */
  lemma {:induction false} BytesRefineMessages(p: Packer, run: seq<Wired>, steps: seq<Step>, i: nat)
    requires ByteRun(p, run, steps) && i < |run|
    ensures ByteOk(p, run[i]) && R.Reaches(R.ADMITTED, Abs(p, run[i]))
  {
    if i == 0 {
      R.ReachesItself(R.ADMITTED);
    } else {
      BytesRefineMessages(p, run, steps, i - 1);
      ReachesOn(p, run[i - 1], steps[i - 1]);
      assert run[i] == Apply(p, run[i - 1], steps[i - 1]);
    }
  }

  lemma ReachesOn(p: Packer, c: Wired, step: Step)
    requires ByteOk(p, c) && Enabled(p, c, step) && R.Reaches(R.ADMITTED, Abs(p, c))
    ensures ByteOk(p, Apply(p, c, step)) && R.Reaches(R.ADMITTED, Abs(p, Apply(p, c, step)))
  {
    StepRefines(p, c, step);
    var shadow := Shadow(p, c, step);
    if shadow.Some? {
      R.ReachesStep(R.ADMITTED, Abs(p, c), shadow.value);
    }
  }

  /** So at the level of bytes, too, a call returns the answer to that very call or a fatal error. */
  lemma BytesReturnOwnAnswer(p: Packer, run: seq<Wired>, steps: seq<Step>, i: nat, id: nat)
    requires ByteRun(p, run, steps) && i < |run| && id in run[i].ctl.returned
    ensures R.OwnAnswer(run[i].ctl, id)
  {
    BytesRefineMessages(p, run, steps, i);
    var abs := Abs(p, run[i]);
    var r: seq<R.Sys>, moves: seq<R.Step> :| R.RunFrom(R.ADMITTED, r, moves) && r[|r| - 1] == abs;
    R.ReturnsOwnAnswer(r, moves, |r| - 1, id);
  }
}
