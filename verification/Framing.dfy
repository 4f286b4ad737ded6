/**
 * Length-prefixed frames over a byte stream: the codec, the channel that many
 * sender threads share, and the receiver that reassembles arbitrary chunks.
 */
module Framing {
  import opened Prelude
  import opened Messages

  const HEADER_SIZE: nat := 4
  const MAX_FRAME_SIZE: nat := 64 * 1024 * 1024

  /**
   * MessagePack itself is a library: a printer and a parser of values, both
   * partial.  `pack` is None where `packb` raises, as for integers beyond 64 bits.
   */
  datatype Packer = Packer(pack: Value -> Option<seq<byte>>, unpack: seq<byte> -> Option<Value>)

  /** What is assumed of the library, message by message: a value it packs comes back. */
  predicate Survives(p: Packer, m: Message) {
    p.pack(ToDict(m)).Some? ==> p.unpack(p.pack(ToDict(m)).value) == Some(ToDict(m))
  }

  predicate AllSurvive(p: Packer, ms: seq<Message>) {
    forall m :: m in ms ==> Survives(p, m)
  }

  // ---- codec ---------------------------------------------------------------

  datatype EncodeError = PackError | FrameTooLarge

  predicate Packable(p: Packer, m: Message) {
    p.pack(ToDict(m)).Some?
  }

  function Payload(p: Packer, m: Message): seq<byte>
    requires Packable(p, m)
  {
    p.pack(ToDict(m)).value
  }

  function Encode(p: Packer, m: Message): Result<seq<byte>, EncodeError> {
    match p.pack(ToDict(m))
    case None => Err(PackError)
    case Some(payload) =>
      if |payload| > MAX_FRAME_SIZE then Err(FrameTooLarge)
      else
        Ok(BigEndian(|payload|, HEADER_SIZE) + payload)
  }

  function DecodeLength(header: seq<byte>): Result<nat, FrameError> {
    if |header| != HEADER_SIZE then Err(BadHeader)
    else
      var length := FromBigEndian(header);
      if length > MAX_FRAME_SIZE then Err(TooLarge) else Ok(length)
  }

  function DecodePayload(p: Packer, payload: seq<byte>): Result<Message, FrameError> {
    match p.unpack(payload)
    case None => Err(BadPayload)
    case Some(v) => FromDict(v)
  }

  predicate Encodable(p: Packer, m: Message) {
    Encode(p, m).Ok?
  }

  function Frame(p: Packer, m: Message): seq<byte>
    requires Encodable(p, m)
  {
    Encode(p, m).value
  }

  /** Every emitted frame has a header the receiver accepts, naming exactly the payload that follows. */
  lemma FrameRoundTrip(p: Packer, m: Message)
    requires Survives(p, m)
    ensures Encodable(p, m) <==> Packable(p, m) && |Payload(p, m)| <= MAX_FRAME_SIZE
    ensures Encodable(p, m) ==>
      var f := Frame(p, m);
      && |f| >= HEADER_SIZE
      && DecodeLength(f[..HEADER_SIZE]) == Ok(|f| - HEADER_SIZE)
      && DecodePayload(p, f[HEADER_SIZE..]) == Ok(Normalised(m))
  {
    if Encodable(p, m) {
      var payload := Payload(p, m);
      BigEndianRoundTrip(|payload|, HEADER_SIZE);
      var f := Frame(p, m);
      assert f[..HEADER_SIZE] == BigEndian(|payload|, HEADER_SIZE);
      assert f[HEADER_SIZE..] == payload;
      RebuildNormalises(m);
    }
  }

  /** On the wire: four bytes of length, high byte first, then what the library packed. */
  lemma FrameBytes(p: Packer, m: Message)
    requires Encodable(p, m)
    ensures var f := Frame(p, m);
      && |f| == 4 + |Payload(p, m)| && f[4..] == Payload(p, m)
      && f[0] as int * 0x100_0000 + f[1] as int * 0x1_0000 + f[2] as int * 0x100 + f[3] as int == |Payload(p, m)|
  {
    var n := |Payload(p, m)|;
    var h := BigEndian(n, HEADER_SIZE);
    BigEndianRoundTrip(n, HEADER_SIZE);
    FourBytes(h);
    assert Frame(p, m) == h + Payload(p, m);
  }

  lemma FourBytes(h: seq<byte>)
    requires |h| == 4
    ensures FromBigEndian(h) == h[0] as int * 0x100_0000 + h[1] as int * 0x1_0000 + h[2] as int * 0x100 + h[3] as int
  {
    var h1, h2, h3 := h[..1], h[..2], h[..3];
    assert h1[..0] == [] && h2[..1] == h1 && h3[..2] == h2;
    assert FromBigEndian(h1) == h[0] && FromBigEndian(h2) == h[0] as int * 0x100 + h[1] as int;
    assert FromBigEndian(h3) == h[0] as int * 0x1_0000 + h[1] as int * 0x100 + h[2] as int;
  }

  /** Which headers are accepted: exactly the four-byte big-endian numbers up to the limit. */
  lemma HeaderAccepted(h: seq<byte>, n: nat)
    requires n <= MAX_FRAME_SIZE
    ensures n < Pow256(HEADER_SIZE) && (DecodeLength(h) == Ok(n) <==> h == BigEndian(n, HEADER_SIZE))
  {
    BigEndianRoundTrip(n, HEADER_SIZE);
    if |h| == HEADER_SIZE {
      FromBigEndianRoundTrip(h);
    }
  }

  /** ... and which errors the codec raises. */
  lemma CodecErrors(p: Packer, m: Message, b: seq<byte>)
    ensures Encode(p, m) == Err(PackError) <==> p.pack(ToDict(m)) == None
    ensures Encode(p, m) == Err(FrameTooLarge) <==> p.pack(ToDict(m)).Some? && |p.pack(ToDict(m)).value| > 64 * 1024 * 1024
    ensures DecodeLength(b) == Err(BadHeader) <==> |b| != 4
    ensures DecodeLength(b) == Err(TooLarge) <==> |b| == 4 && FromBigEndian(b) > 64 * 1024 * 1024
    ensures p.unpack(b) == None ==> DecodePayload(p, b) == Err(BadPayload)
    ensures p.unpack(b).Some? ==> DecodePayload(p, b) == FromDict(p.unpack(b).value)
  {
  }

  // ---- what a receiver makes of a byte stream -------------------------------

  datatype Received =
    | Got(m: Message, rest: seq<byte>)
    | PeerClosed
    | Broken(error: FrameError)

  /** One `recv()` on a stream that holds `stream` and is then closed by the peer. */
  function RecvOne(p: Packer, stream: seq<byte>): (r: Received)
    ensures r.Got? ==> |r.rest| < |stream|
  {
    if |stream| < HEADER_SIZE then PeerClosed
    else
      match DecodeLength(stream[..HEADER_SIZE])
      case Err(e) => Broken(e)
      case Ok(n) =>
        if |stream| - HEADER_SIZE < n then PeerClosed
        else
          match DecodePayload(p, stream[HEADER_SIZE..HEADER_SIZE + n])
          case Err(e) => Broken(e)
          case Ok(m) => Got(m, stream[HEADER_SIZE + n..])
  }

  /** How a sequence of `recv()` calls ends: in ConnectionClosed (None) or in a frame error. */
  datatype Delivery = Delivery(messages: seq<Message>, failure: Option<FrameError>)

  function RecvAll(p: Packer, stream: seq<byte>): Delivery
    decreases |stream|
  {
    match RecvOne(p, stream)
    case PeerClosed => Delivery([], None)
    case Broken(e) => Delivery([], Some(e))
    case Got(m, rest) =>
      var d := RecvAll(p, rest);
      Delivery([m] + d.messages, d.failure)
  }

  predicate AllEncodable(p: Packer, ms: seq<Message>) {
    forall m :: m in ms ==> Encodable(p, m)
  }

  function Frames(p: Packer, ms: seq<Message>): seq<byte>
    requires AllEncodable(p, ms)
  {
    if ms == [] then [] else Frame(p, ms[0]) + Frames(p, ms[1..])
  }

  function NormalisedAll(ms: seq<Message>): seq<Message> {
    seq(|ms|, i requires 0 <= i < |ms| => Normalised(ms[i]))
  }

  /** The number of whole frames among the first `n` bytes of `Frames(p, ms)`. */
  function WholeFrames(p: Packer, ms: seq<Message>, n: nat): (k: nat)
    requires AllEncodable(p, ms)
    ensures k <= |ms|
  {
    if ms == [] || n < |Frame(p, ms[0])| then 0
    else 1 + WholeFrames(p, ms[1..], n - |Frame(p, ms[0])|)
  }

  /** Reading one frame from a stream that starts with it takes exactly that frame. */
  lemma RecvTakesOneFrame(p: Packer, m: Message, rest: seq<byte>)
    requires Survives(p, m) && Encodable(p, m)
    ensures RecvOne(p, Frame(p, m) + rest) == Got(Normalised(m), rest)
  {
    FrameRoundTrip(p, m);
    var f := Frame(p, m);
    var s := f + rest;
    assert s[..HEADER_SIZE] == f[..HEADER_SIZE];
    assert s[HEADER_SIZE..|f|] == f[HEADER_SIZE..];
    assert s[|f|..] == rest;
  }

  /** A framed payload that does not decode ends the stream with that error, whatever follows. */
  lemma BadPayloadEndsStream(p: Packer, payload: seq<byte>, rest: seq<byte>)
    requires |payload| <= MAX_FRAME_SIZE && DecodePayload(p, payload).Err?
    ensures |payload| < Pow256(HEADER_SIZE)
    ensures RecvAll(p, BigEndian(|payload|, HEADER_SIZE) + payload + rest) == Delivery([], Some(DecodePayload(p, payload).error))
  {
    HeaderAccepted(BigEndian(|payload|, HEADER_SIZE), |payload|);
    var s := BigEndian(|payload|, HEADER_SIZE) + payload + rest;
    assert s[..HEADER_SIZE] == BigEndian(|payload|, HEADER_SIZE);
    assert s[HEADER_SIZE..HEADER_SIZE + |payload|] == payload;
  }

  /** A proper prefix of one frame yields no message and no error: the receiver waits for more. */
  lemma RecvWaitsForWholeFrame(p: Packer, m: Message, n: nat)
    requires Survives(p, m) && Encodable(p, m) && n < |Frame(p, m)|
    ensures RecvOne(p, Frame(p, m)[..n]) == PeerClosed
  {
    FrameRoundTrip(p, m);
    var f := Frame(p, m);
    if n >= HEADER_SIZE {
      assert f[..n][..HEADER_SIZE] == f[..HEADER_SIZE];
    }
  }

  lemma CutInsideFirst(p: Packer, ms: seq<Message>, n: nat)
    requires AllSurvive(p, ms) && AllEncodable(p, ms) && ms != [] && n < |Frame(p, ms[0])|
    ensures n <= |Frames(p, ms)| && RecvAll(p, Frames(p, ms)[..n]) == Delivery([], None)
  {
    assert Frames(p, ms)[..n] == Frame(p, ms[0])[..n];
    RecvWaitsForWholeFrame(p, ms[0], n);
  }

  lemma CutAfterFirst(p: Packer, ms: seq<Message>, n: nat)
    requires AllSurvive(p, ms) && AllEncodable(p, ms) && ms != [] && |Frame(p, ms[0])| <= n <= |Frames(p, ms)|
    ensures n - |Frame(p, ms[0])| <= |Frames(p, ms[1..])|
    ensures var d := RecvAll(p, Frames(p, ms[1..])[..n - |Frame(p, ms[0])|]);
      RecvAll(p, Frames(p, ms)[..n]) == Delivery([Normalised(ms[0])] + d.messages, d.failure)
  {
    var f := Frame(p, ms[0]);
    var rest := Frames(p, ms[1..])[..n - |f|];
    TakeOfSum(f, Frames(p, ms[1..]), n);
    RecvTakesOneFrame(p, ms[0], rest);
  }

  lemma TakeOfSum(a: seq<byte>, b: seq<byte>, n: nat)
    requires |a| <= n <= |a| + |b|
    ensures (a + b)[..n] == a + b[..n - |a|]
  {
  }

  lemma DropOfSum(a: seq<byte>, b: seq<byte>, n: nat)
    requires n <= |a|
    ensures (a + b)[n..] == a[n..] + b
  {
  }

  lemma {:induction false} AllWhole(p: Packer, ms: seq<Message>, n: nat)
    requires AllEncodable(p, ms) && n <= |Frames(p, ms)|
    ensures WholeFrames(p, ms, n) == |ms| <==> n == |Frames(p, ms)|
    decreases |ms|
  {
    if ms != [] && n >= |Frame(p, ms[0])| {
      AllWhole(p, ms[1..], n - |Frame(p, ms[0])|);
    }
  }

  /**
   * The stream law: cut the concatenated frames anywhere, and the receiver
   * delivers exactly the messages whose frames are complete, in order, and
   * then ConnectionClosed.  No mangled message, no frame error.
   */
  lemma {:induction false} CutStream(p: Packer, ms: seq<Message>, n: nat)
    requires AllSurvive(p, ms) && AllEncodable(p, ms) && n <= |Frames(p, ms)|
    ensures RecvAll(p, Frames(p, ms)[..n]) == Delivery(NormalisedAll(ms[..WholeFrames(p, ms, n)]), None)
    ensures WholeFrames(p, ms, n) == |ms| <==> n == |Frames(p, ms)|
    decreases |ms|
  {
    AllWhole(p, ms, n);
    if ms == [] {
      assert RecvOne(p, []) == PeerClosed;
    } else if n < |Frame(p, ms[0])| {
      CutInsideFirst(p, ms, n);
    } else {
      var left := n - |Frame(p, ms[0])|;
      CutStream(p, ms[1..], left);
      OneMoreDelivered(p, ms, n, WholeFrames(p, ms[1..], left));
    }
  }

  lemma OneMoreDelivered(p: Packer, ms: seq<Message>, n: nat, k: nat)
    requires AllSurvive(p, ms) && AllEncodable(p, ms) && ms != [] && |Frame(p, ms[0])| <= n <= |Frames(p, ms)|
    requires k < |ms|
    requires RecvAll(p, Frames(p, ms[1..])[..n - |Frame(p, ms[0])|]) == Delivery(NormalisedAll(ms[1..][..k]), None)
    ensures RecvAll(p, Frames(p, ms)[..n]) == Delivery(NormalisedAll(ms[..k + 1]), None)
  {
    CutAfterFirst(p, ms, n);
  }

  // ---- many sender threads, one socket ---------------------------------------

  /** A thread inside `with self._send_lock`, with the bytes `sendall` has still to write. */
  datatype Holder = Holder(sender: nat, unsent: seq<byte>)

  /** The socket, the lock, and the messages in the order their senders took the lock. */
  datatype Channel = Channel(wire: seq<byte>, holder: Option<Holder>, log: seq<Message>)

  const IDLE_CHANNEL: Channel := Channel([], None, [])

  datatype SendStep =
    | Acquire(sender: nat, m: Message)
    | Write(count: nat)
    | Release

  /** `sendall` may be split anywhere; only the lock keeps frames apart. */
  ghost predicate ChannelStep(p: Packer, c: Channel, step: SendStep, c': Channel) {
    match step
    case Acquire(sender, m) =>
      c.holder.None? && Encodable(p, m)
      && c' == c.(holder := Some(Holder(sender, Frame(p, m))), log := c.log + [m])
    case Write(count) =>
      c.holder.Some? && 0 < count <= |c.holder.value.unsent|
      && var h := c.holder.value;
      c' == c.(wire := c.wire + h.unsent[..count], holder := Some(h.(unsent := h.unsent[count..])))
    case Release =>
      c.holder.Some? && c.holder.value.unsent == [] && c' == c.(holder := None)
  }

  ghost predicate ChannelRun(p: Packer, run: seq<Channel>, steps: seq<SendStep>) {
    && |run| == |steps| + 1
    && run[0] == IDLE_CHANNEL
    && forall i :: 0 <= i < |steps| ==> ChannelStep(p, run[i], steps[i], run[i + 1])
  }

  function Unsent(c: Channel): seq<byte> {
    if c.holder.Some? then c.holder.value.unsent else []
  }

  ghost predicate FramesApart(p: Packer, c: Channel) {
    AllEncodable(p, c.log) && c.wire + Unsent(c) == Frames(p, c.log)
    && (c.holder.Some? ==> c.log != [] && exists done :: done + Unsent(c) == Frame(p, c.log[|c.log| - 1]))
  }

  lemma {:induction false} FramesAppend(p: Packer, ms: seq<Message>, m: Message)
    requires AllEncodable(p, ms) && Encodable(p, m)
    ensures AllEncodable(p, ms + [m])
    ensures Frames(p, ms + [m]) == Frames(p, ms) + Frame(p, m)
  {
    if ms == [] {
      assert [m][1..] == [];
      assert ms + [m] == [m];
    } else {
      FramesAppend(p, ms[1..], m);
      assert (ms + [m])[1..] == ms[1..] + [m];
    }
  }

  lemma AcquireKeepsFramesApart(p: Packer, c: Channel, sender: nat, m: Message, c': Channel)
    requires FramesApart(p, c) && ChannelStep(p, c, Acquire(sender, m), c')
    ensures FramesApart(p, c')
  {
    FramesAppend(p, c.log, m);
    assert c.wire + [] == c.wire;
    assert [] + Unsent(c') == Frame(p, m);
  }

  lemma WriteKeepsFramesApart(p: Packer, c: Channel, count: nat, c': Channel)
    requires FramesApart(p, c) && ChannelStep(p, c, Write(count), c')
    ensures FramesApart(p, c')
  {
    var unsent := c.holder.value.unsent;
    Regroup(c.wire, unsent, count);
    var done :| done + Unsent(c) == Frame(p, c.log[|c.log| - 1]);
    Regroup(done, unsent, count);
    assert (done + unsent[..count]) + Unsent(c') == done + Unsent(c);
  }

  lemma Regroup(a: seq<byte>, b: seq<byte>, n: nat)
    requires n <= |b|
    ensures (a + b[..n]) + b[n..] == a + b
  {
  }

  lemma ChannelStepKeepsFramesApart(p: Packer, c: Channel, step: SendStep, c': Channel)
    requires FramesApart(p, c) && ChannelStep(p, c, step, c')
    ensures FramesApart(p, c')
  {
    match step
    case Acquire(sender, m) => AcquireKeepsFramesApart(p, c, sender, m, c');
    case Write(count) => WriteKeepsFramesApart(p, c, count, c');
    case Release =>
  }

  lemma {:induction false} ChannelInvariant(p: Packer, run: seq<Channel>, steps: seq<SendStep>, i: nat)
    requires ChannelRun(p, run, steps) && i < |run|
    ensures FramesApart(p, run[i])
  {
    if i > 0 {
      ChannelInvariant(p, run, steps, i - 1);
      ChannelStepKeepsFramesApart(p, run[i - 1], steps[i - 1], run[i]);
    }
  }

  /**
   * For any number of senders and any splitting of their writes: in every
   * state the receiver can reassemble, from what is on the wire, exactly the
   * messages sent so far in lock order - all of them once no frame is partly written.
   */
  lemma SharedChannelDelivers(p: Packer, run: seq<Channel>, steps: seq<SendStep>, i: nat)
    requires ChannelRun(p, run, steps) && i < |run| && AllSurvive(p, run[i].log)
    ensures AllEncodable(p, run[i].log)
    ensures exists k :: Delivers(p, run[i], k)
  {
    ChannelInvariant(p, run, steps, i);
    var c := run[i];
    CutStream(p, c.log, |c.wire|);
    assert Frames(p, c.log)[..|c.wire|] == c.wire;
    OnlyLastCut(p, c);
    assert Delivers(p, c, WholeFrames(p, c.log, |c.wire|));
  }

  /** The receiver gets the first `k` messages of the log: all of them, or all but the one being written. */
  predicate Delivers(p: Packer, c: Channel, k: nat) {
    && |c.log| - 1 <= k <= |c.log| && (k == |c.log| <==> Unsent(c) == [])
    && RecvAll(p, c.wire) == Delivery(NormalisedAll(c.log[..k]), None)
  }

  lemma OnlyLastCut(p: Packer, c: Channel)
    requires FramesApart(p, c)
    ensures WholeFrames(p, c.log, |c.wire|) >= |c.log| - 1
  {
    if c.log != [] {
      var init, last := c.log[..|c.log| - 1], c.log[|c.log| - 1];
      assert c.log == init + [last];
      FramesAppend(p, init, last);
      WholeFramesOfPrefix(p, init, [last], |c.wire|);
    }
  }

  lemma {:induction false} WholeFramesOfPrefix(p: Packer, ms: seq<Message>, more: seq<Message>, n: nat)
    requires AllEncodable(p, ms) && AllEncodable(p, ms + more) && |Frames(p, ms)| <= n
    ensures WholeFrames(p, ms + more, n) >= |ms|
    decreases |ms|
  {
    if ms != [] {
      assert (ms + more)[1..] == ms[1..] + more;
      WholeFramesOfPrefix(p, ms[1..], more, n - |Frame(p, ms[0])|);
    }
  }

  /** What will have been delivered once `stream` is drained, after `delivered`. */
  function After(p: Packer, delivered: seq<Message>, stream: seq<byte>): Delivery {
    var d := RecvAll(p, stream);
    Delivery(delivered + d.messages, d.failure)
  }

  // ---- the receiving end, step by step -----------------------------------------

  datatype SocketRecv = Bytes(b: seq<byte>) | Eof | Timeout

  datatype Exact = Data(b: seq<byte>) | Closed | TimedOut

  /**
   * A connected socket seen from one end: the bytes still to arrive, after
   * which the peer closes, and the bytes written so far.  How `recv` chunks
   * what arrives, and when it times out, is left open.
   */
  class ByteStream {
    var incoming: seq<byte>
    var outgoing: seq<byte>
    var open: bool
    const hasTimeout: bool

    constructor (incoming: seq<byte>, hasTimeout: bool)
      ensures this.incoming == incoming && this.outgoing == [] && open && this.hasTimeout == hasTimeout
    {
      this.incoming := incoming;
      this.outgoing := [];
      this.open := true;
      this.hasTimeout := hasTimeout;
    }

    method Recv(max: nat) returns (r: SocketRecv)
      requires max > 0
      modifies this`incoming
      ensures r.Bytes? ==> 0 < |r.b| <= max && old(incoming) == r.b + incoming
      ensures r.Eof? ==> old(incoming) == [] && incoming == []
      ensures r.Timeout? ==> hasTimeout && incoming == old(incoming)
    {
      if hasTimeout {
        if * {
          return Timeout;
        }
      }
      if incoming == [] {
        return Eof;
      }
      var k :| 1 <= k <= max && k <= |incoming|;
      r := Bytes(incoming[..k]);
      incoming := incoming[k..];
    }

    /**
     * Reads exactly `count` bytes.  `lost` counts the bytes that had already
     * been taken from the socket when a timeout was raised: they are dropped.
     */
    method RecvExact(count: nat) returns (r: Exact, ghost lost: nat)
      modifies this`incoming
      ensures r.Data? ==> |r.b| == count && old(incoming) == r.b + incoming && lost == 0
      ensures r.Closed? ==> |old(incoming)| < count && incoming == [] && lost == 0
      ensures r.TimedOut? ==> hasTimeout && lost < count && lost <= |old(incoming)|
                              && incoming == old(incoming)[lost..]
    {
      ghost var start := incoming;
      var chunks: seq<byte> := [];
      var remaining := count;
      while remaining > 0
        invariant |chunks| + remaining == count
        invariant start == chunks + incoming
      {
        var chunk := Recv(remaining);
        match chunk {
          case Timeout => return TimedOut, |chunks|;
          case Eof => return Closed, 0;
          case Bytes(b) =>
            chunks := chunks + b;
            remaining := remaining - |b|;
        }
      }
      return Data(chunks), 0;
    }

    method SendAll(b: seq<byte>)
      modifies this`outgoing
      ensures outgoing == old(outgoing) + b
    {
      outgoing := outgoing + b;
    }

    method Close()
      modifies this`open
      ensures !open
    {
      open := false;
    }
  }

  datatype RecvResult = Message(m: Message) | ConnectionClosed | RecvFailed(error: FrameError) | RecvTimedOut

  class Connection {
    const sock: ByteStream

    constructor (sock: ByteStream)
      ensures this.sock == sock
    {
      this.sock := sock;
    }

    /**
     * One message.  Whatever the chunking, the outcome is that of `RecvOne`;
     * a timeout advances the stream by the bytes it lost.
     */
    method Recv(p: Packer) returns (r: RecvResult, ghost lost: nat)
      modifies sock`incoming
      ensures r.Message? ==> RecvOne(p, old(sock.incoming)) == Got(r.m, sock.incoming)
      ensures r.ConnectionClosed? ==> RecvOne(p, old(sock.incoming)) == PeerClosed
      ensures r.RecvFailed? ==> RecvOne(p, old(sock.incoming)) == Broken(r.error)
      ensures r.RecvTimedOut? ==> sock.hasTimeout && lost <= |old(sock.incoming)|
                                  && sock.incoming == old(sock.incoming)[lost..]
    {
      ghost var start := sock.incoming;
      var header, lostHeader := sock.RecvExact(HEADER_SIZE);
      if header.TimedOut? {
        return RecvTimedOut, lostHeader;
      }
      if header.Closed? {
        return ConnectionClosed, 0;
      }
      assert start[..HEADER_SIZE] == header.b && start[HEADER_SIZE..] == sock.incoming;
      var length := DecodeLength(header.b);
      if length.Err? {
        return RecvFailed(length.error), 0;
      }
      var body, lostBody := sock.RecvExact(length.value);
      if body.TimedOut? {
        return RecvTimedOut, HEADER_SIZE + lostBody;
      }
      if body.Closed? {
        return ConnectionClosed, 0;
      }
      assert start[HEADER_SIZE..HEADER_SIZE + length.value] == body.b;
      assert start[HEADER_SIZE + length.value..] == sock.incoming;
      var m := DecodePayload(p, body.b);
      if m.Err? {
        return RecvFailed(m.error), 0;
      }
      return Message(m.value), 0;
    }

    /**
     * The controller's reader: keep receiving, carry on after a timeout, stop
     * at the first error.  `passes` bounds how often `_running` is still found
     * set.  As long as no timeout fell inside a frame, what has been delivered
     * is a prefix of what the stream holds, and all of it when the stream ended.
     */
    method ReaderLoop(p: Packer, passes: nat)
      returns (delivered: seq<Message>, timeouts: nat, ended: bool, failure: Option<FrameError>, ghost torn: bool)
      modifies sock`incoming
      ensures !sock.hasTimeout ==> timeouts == 0 && !torn
      ensures !ended ==> |delivered| + timeouts == passes
      ensures !torn ==> delivered <= RecvAll(p, old(sock.incoming)).messages
      ensures !torn && ended ==> Delivery(delivered, failure) == RecvAll(p, old(sock.incoming))
    {
      ghost var whole := RecvAll(p, sock.incoming);
      delivered, timeouts, ended, failure, torn := [], 0, false, None, false;
      var pass := 0;
      while pass < passes && !ended
        invariant !sock.hasTimeout ==> timeouts == 0 && !torn
        invariant !ended ==> |delivered| + timeouts == pass <= passes
        invariant !torn && !ended ==> whole == After(p, delivered, sock.incoming)
        invariant !ended ==> failure == None
        invariant !torn && ended ==> whole == Delivery(delivered, failure)
        decreases passes - pass
      {
        pass := pass + 1;
        ghost var before := sock.incoming;
        var r, lost := Recv(p);
        match r {
          case RecvTimedOut =>
            timeouts := timeouts + 1;
            torn := torn || lost > 0;
            assert before[0..] == before;
          case ConnectionClosed => ended := true;
          case RecvFailed(e) => ended, failure := true, Some(e);
          case Message(m) => delivered := delivered + [m];
        }
      }
    }
  }

  // ---- timeouts inside a frame -----------------------------------------------------

  lemma {:induction false} FromBigEndianAppend(a: seq<byte>, b: seq<byte>)
    ensures FromBigEndian(a + b) == FromBigEndian(a) * Pow256(|b|) + FromBigEndian(b)
  {
    if b == [] {
      assert a + b == a;
    } else {
      var init, last := b[..|b| - 1], b[|b| - 1];
      FromBigEndianAppend(a, init);
      assert (a + b)[..|a + b| - 1] == a + init && (a + b)[|a + b| - 1] == last;
      assert FromBigEndian(b) == FromBigEndian(init) * 256 + last;
      Shift(FromBigEndian(a), Pow256(|init|), Pow256(|b|), FromBigEndian(init), last);
    }
  }

  lemma Shift(x: nat, y: nat, z: nat, low: nat, last: nat)
    requires z == 256 * y
    ensures (x * y + low) * 256 + last == x * z + (low * 256 + last)
  {
  }

  lemma Remainder(n: nat, q: nat, d: nat, r: nat)
    requires n == q * d + r && r < d
    ensures n % d == r && n / d == q
  {
    if n / d < q { Multiple(q - n / d, d); }
    if q < n / d { Multiple(n / d - q, d); }
    assert n == n / d * d + n % d;
    assert (q - n / d) * d == q * d - n / d * d;
  }

  lemma Multiple(k: nat, d: nat)
    requires k >= 1
    ensures k * d >= d
  {
  }

  /** `recv` keeps nothing across a timeout: what it makes of a frame whose first `n` bytes were lost. */
  function AfterLosing(p: Packer, m: Message, n: nat, rest: seq<byte>): Received
    requires Encodable(p, m) && n <= |Frame(p, m)|
  {
    RecvOne(p, Frame(p, m)[n..] + rest)
  }

  /** The number read as the next header when the timeout fell inside this one. */
  function SkewedHeader(length: nat, payload: seq<byte>, n: nat): nat
    requires n < HEADER_SIZE && n <= |payload|
  {
    length % Pow256(HEADER_SIZE - n) * Pow256(n) + FromBigEndian(payload[..n])
  }

  lemma SkewedHeaderRead(length: nat, payload: seq<byte>, n: nat, rest: seq<byte>)
    requires length <= MAX_FRAME_SIZE && n < HEADER_SIZE && n <= |payload|
    requires length < Pow256(HEADER_SIZE)
    ensures var header := BigEndian(length, HEADER_SIZE);
      FromBigEndian((header[n..] + payload + rest)[..HEADER_SIZE]) == SkewedHeader(length, payload, n)
  {
    var header := BigEndian(length, HEADER_SIZE);
    BigEndianRoundTrip(length, HEADER_SIZE);
    FromBigEndianAppend(header[..n], header[n..]);
    assert header == header[..n] + header[n..];
    Remainder(length, FromBigEndian(header[..n]), Pow256(HEADER_SIZE - n), FromBigEndian(header[n..]));
    FromBigEndianAppend(header[n..], payload[..n]);
    assert (header[n..] + payload + rest)[..HEADER_SIZE] == header[n..] + payload[..n];
  }

  /** What is made of a header that says `v`, with `available` bytes behind it: too large, or not yet enough, or `v` bytes taken for a payload. */
  predicate HeaderRead(r: Received, v: nat, available: nat) {
    && (r == Broken(TooLarge) <==> v > MAX_FRAME_SIZE)
    && (v <= MAX_FRAME_SIZE && available < v ==> r == PeerClosed)
    && (r.Got? ==> |r.rest| == available - v)
  }

  lemma ReadsHeader(p: Packer, stream: seq<byte>)
    requires |stream| >= HEADER_SIZE
    ensures HeaderRead(RecvOne(p, stream), FromBigEndian(stream[..HEADER_SIZE]), |stream| - HEADER_SIZE)
  {
  }

  /** After a timeout inside the header the rest of it and the first bytes of the payload are the next header. */
  lemma TimeoutInsideHeader(p: Packer, m: Message, n: nat, rest: seq<byte>)
    requires Encodable(p, m) && 0 < n < HEADER_SIZE && n <= |Payload(p, m)|
    ensures HeaderRead(AfterLosing(p, m, n, rest), SkewedHeader(|Payload(p, m)|, Payload(p, m), n), |Payload(p, m)| - n + |rest|)
  {
    var payload := Payload(p, m);
    var header := BigEndian(|payload|, HEADER_SIZE);
    SkewedHeaderRead(|payload|, payload, n, rest);
    DropOfSum(header, payload, n);
    ReadsHeader(p, header[n..] + payload + rest);
  }

  /** After a timeout inside the payload its next four bytes are. */
  lemma TimeoutInsidePayload(p: Packer, m: Message, k: nat, rest: seq<byte>)
    requires Encodable(p, m) && k + HEADER_SIZE <= |Payload(p, m)|
    ensures HeaderRead(AfterLosing(p, m, HEADER_SIZE + k, rest), FromBigEndian(Payload(p, m)[k..k + HEADER_SIZE]),
                       |Payload(p, m)| - k - HEADER_SIZE + |rest|)
  {
    var payload := Payload(p, m);
    var stream := payload[k..] + rest;
    assert Frame(p, m)[HEADER_SIZE + k..] == payload[k..];
    assert stream[..HEADER_SIZE] == payload[k..k + HEADER_SIZE];
    ReadsHeader(p, stream);
  }

  /** The number read when the last bytes of a payload run into the next frame's header. */
  function StraddlingHeader(last: seq<byte>, length: nat): nat
    requires |last| < HEADER_SIZE
  {
    FromBigEndian(last) * Pow256(HEADER_SIZE - |last|) + length / Pow256(|last|)
  }

  lemma StraddlingHeaderRead(last: seq<byte>, length: nat, rest: seq<byte>)
    requires |last| < HEADER_SIZE && length < Pow256(HEADER_SIZE)
    ensures FromBigEndian((last + (BigEndian(length, HEADER_SIZE) + rest))[..HEADER_SIZE]) == StraddlingHeader(last, length)
  {
    var header, k := BigEndian(length, HEADER_SIZE), HEADER_SIZE - |last|;
    BigEndianRoundTrip(length, HEADER_SIZE);
    FromBigEndianAppend(header[..k], header[k..]);
    assert header == header[..k] + header[k..];
    Remainder(length, FromBigEndian(header[..k]), Pow256(|last|), FromBigEndian(header[k..]));
    FromBigEndianAppend(last, header[..k]);
    assert (last + (header + rest))[..HEADER_SIZE] == last + header[..k];
  }

  /** After a timeout within the last bytes of the payload these and the first bytes of the next frame's header are. */
  lemma TimeoutNearEnd(p: Packer, m: Message, k: nat, next: Message, rest: seq<byte>)
    requires Encodable(p, m) && Encodable(p, next) && k < |Payload(p, m)| < k + HEADER_SIZE
    ensures var last := Payload(p, m)[k..];
      HeaderRead(AfterLosing(p, m, HEADER_SIZE + k, Frame(p, next) + rest), StraddlingHeader(last, |Payload(p, next)|),
                 |last| + |Payload(p, next)| + |rest|)
  {
    var payload, following := Payload(p, m), Payload(p, next);
    var last, header := payload[k..], BigEndian(|following|, HEADER_SIZE);
    StraddlingHeaderRead(last, |following|, following + rest);
    var stream := last + (header + (following + rest));
    assert Frame(p, m)[HEADER_SIZE + k..] == last;
    assert Frame(p, next) + rest == header + (following + rest);
    ReadsHeader(p, stream);
  }

  /**
   * Between header and payload it is always fatal: a MessagePack map of up to
   * fifteen entries, such as every message, starts with byte 0x80 or more.
   */
  lemma HeaderTimeoutIsFatal(p: Packer, m: Message, rest: seq<byte>)
    requires Encodable(p, m) && |Payload(p, m)| >= HEADER_SIZE && Payload(p, m)[0] >= 0x80
    ensures AfterLosing(p, m, HEADER_SIZE, rest) == Broken(TooLarge)
  {
    TimeoutInsidePayload(p, m, 0, rest);
    LeadingByte(Payload(p, m)[..HEADER_SIZE]);
  }

  /**
   * Elsewhere it need not be: a short frame that lost its first byte announces
   * one at least 256 times as long, and until that many bytes have come the
   * receiver takes everything sent for its payload.
   */
  lemma FirstByteLostIsSilent(p: Packer, m: Message, rest: seq<byte>)
    requires Encodable(p, m) && 0 < |Payload(p, m)| < 0x4_0000
    requires |rest| < 255 * |Payload(p, m)|
    ensures AfterLosing(p, m, 1, rest) == PeerClosed
  {
    var payload := Payload(p, m);
    var header := BigEndian(|payload|, HEADER_SIZE);
    assert Frame(p, m)[1..] + rest == header[1..] + payload + rest;
    SkewedHeaderRead(|payload|, payload, 1, rest);
    SkewBounds(payload);
    ReadsHeader(p, header[1..] + payload + rest);
  }

  lemma SkewBounds(payload: seq<byte>)
    requires 0 < |payload| < 0x4_0000
    ensures 256 * |payload| <= SkewedHeader(|payload|, payload, 1) <= MAX_FRAME_SIZE
  {
    SmallLength(|payload|);
    assert payload[..1][..0] == [];
    assert FromBigEndian(payload[..1]) == payload[0];
  }

  lemma SmallLength(n: nat)
    requires n < 0x4_0000
    ensures n % Pow256(3) * Pow256(1) == n * 256
  {
    assert Pow256(3) == 256 * Pow256(2) && Pow256(2) == 256 * Pow256(1) && Pow256(1) == 256 * Pow256(0);
  }

  lemma LeadingByte(h: seq<byte>)
    requires |h| == HEADER_SIZE
    ensures FromBigEndian(h) >= h[0] as int * 0x100_0000
  {
    var h1, h2, h3 := h[..1], h[..2], h[..3];
    assert h1[..0] == [] && h2[..1] == h1 && h3[..2] == h2;
    assert FromBigEndian(h1) == h[0];
    assert FromBigEndian(h2) >= h[0] as int * 0x100;
    assert FromBigEndian(h3) >= h[0] as int * 0x1_0000;
  }
}
