/**
 * One direction of a connection at the level of bytes: senders write frames
 * under the send lock, piece by piece, while the receiver takes bytes in
 * chunks of any size.  Seen from outside it is a queue of messages.
 */
module Pipe {
  import opened Prelude
  import opened Messages
  import opened Framing

  /**
   * `channel` is the sending side; the receiver has taken the first `pos`
   * bytes of the wire, has handed out `delivered` messages, and holds in `got`
   * what it has of the next frame.
   */
  datatype Pipe = Pipe(channel: Channel, pos: nat, got: seq<byte>, delivered: nat)

  const EMPTY: Pipe := Pipe(IDLE_CHANNEL, 0, [], 0)

  /** How many frames are on the wire in full. */
  function Whole(c: Channel): (n: nat)
    ensures n <= |c.log|
  {
    if Unsent(c) != [] && c.log != [] then |c.log| - 1 else |c.log|
  }

  // ---- what sender and receiver do ------------------------------------------------

  function Acquired(p: Packer, q: Pipe, sender: nat, m: Message): Pipe
    requires Encodable(p, m)
  {
    q.(channel := q.channel.(holder := Some(Holder(sender, Frame(p, m))), log := q.channel.log + [m]))
  }

  predicate CanWrite(q: Pipe, n: nat) {
    q.channel.holder.Some? && 0 < n <= |q.channel.holder.value.unsent|
  }

  function Wrote(q: Pipe, n: nat): Pipe
    requires CanWrite(q, n)
  {
    var h := q.channel.holder.value;
    q.(channel := q.channel.(wire := q.channel.wire + h.unsent[..n], holder := Some(h.(unsent := h.unsent[n..]))))
  }

  predicate CanRelease(q: Pipe) {
    q.channel.holder.Some? && q.channel.holder.value.unsent == []
  }

  function ReleasedLock(q: Pipe): Pipe {
    q.(channel := q.channel.(holder := None))
  }

  /** One `recv`: never more than is wanted for the header, or for the payload it announces. */
  predicate CanTake(q: Pipe, n: nat) {
    && 0 < n && q.pos + n <= |q.channel.wire|
    && if |q.got| < HEADER_SIZE then |q.got| + n <= HEADER_SIZE
       else DecodeLength(q.got[..HEADER_SIZE]).Ok? && |q.got| + n <= HEADER_SIZE + DecodeLength(q.got[..HEADER_SIZE]).value
  }

  function Took(q: Pipe, n: nat): Pipe
    requires CanTake(q, n)
  {
    q.(pos := q.pos + n, got := q.got + q.channel.wire[q.pos..q.pos + n])
  }

  /** The receiver has a whole frame. */
  predicate HasFrame(q: Pipe) {
    |q.got| >= HEADER_SIZE && DecodeLength(q.got[..HEADER_SIZE]) == Ok(|q.got| - HEADER_SIZE)
  }

  function HandedOut(q: Pipe): Pipe {
    q.(got := [], delivered := q.delivered + 1)
  }

  // ---- the queue behind it ------------------------------------------------------------

  ghost predicate PipeOk(p: Packer, q: Pipe) {
    && FramesApart(p, q.channel) && AllSurvive(p, q.channel.log)
    && q.pos <= |q.channel.wire| && q.delivered <= Whole(q.channel)
    && AllEncodable(p, q.channel.log[..q.delivered])
    && q.channel.wire[..q.pos] == Frames(p, q.channel.log[..q.delivered]) + q.got
  }

  /** The messages written in full and not yet handed out. */
  function Queue(q: Pipe): seq<Message>
    requires q.delivered <= Whole(q.channel)
  {
    q.channel.log[q.delivered..Whole(q.channel)]
  }

  /** Taking the lock puts nothing into the queue yet. */
  lemma AcquireKeepsQueue(p: Packer, q: Pipe, sender: nat, m: Message)
    requires PipeOk(p, q) && q.channel.holder.None? && Encodable(p, m) && Survives(p, m)
    ensures PipeOk(p, Acquired(p, q, sender, m)) && Queue(Acquired(p, q, sender, m)) == Queue(q)
  {
    var t := Acquired(p, q, sender, m);
    AcquireKeepsFramesApart(p, q.channel, sender, m, t.channel);
    assert t.channel.log[..q.delivered] == q.channel.log[..q.delivered];
    FrameRoundTrip(p, m);
  }

  /** Writing puts the message into the queue with its last byte, and not before. */
  lemma WriteQueues(p: Packer, q: Pipe, n: nat)
    requires PipeOk(p, q) && CanWrite(q, n)
    ensures PipeOk(p, Wrote(q, n)) && q.channel.log != []
    ensures Queue(Wrote(q, n))
      == Queue(q) + if n == |q.channel.holder.value.unsent| then [q.channel.log[|q.channel.log| - 1]] else []
  {
    var t := Wrote(q, n);
    WriteKeepsFramesApart(p, q.channel, n, t.channel);
    assert t.channel.wire[..q.pos] == q.channel.wire[..q.pos];
  }

  lemma ReleaseKeepsQueue(p: Packer, q: Pipe)
    requires PipeOk(p, q) && CanRelease(q)
    ensures PipeOk(p, ReleasedLock(q)) && Queue(ReleasedLock(q)) == Queue(q)
  {
    ChannelStepKeepsFramesApart(p, q.channel, Release, ReleasedLock(q).channel);
  }

  lemma TakeKeepsQueue(p: Packer, q: Pipe, n: nat)
    requires PipeOk(p, q) && CanTake(q, n)
    ensures PipeOk(p, Took(q, n)) && Queue(Took(q, n)) == Queue(q)
  {
    var w := q.channel.wire;
    assert w[..q.pos + n] == w[..q.pos] + w[q.pos..q.pos + n];
    Associates(Frames(p, q.channel.log[..q.delivered]), q.got, w[q.pos..q.pos + n]);
  }

  lemma Associates(a: seq<byte>, b: seq<byte>, c: seq<byte>)
    ensures (a + b) + c == a + (b + c)
  {
  }

  lemma {:induction false} FramesConcat(p: Packer, ms: seq<Message>, more: seq<Message>)
    requires AllEncodable(p, ms) && AllEncodable(p, more)
    ensures AllEncodable(p, ms + more) && Frames(p, ms + more) == Frames(p, ms) + Frames(p, more)
    decreases |ms|
  {
    if ms == [] {
      assert ms + more == more;
    } else {
      assert (ms + more)[1..] == ms[1..] + more;
      FramesConcat(p, ms[1..], more);
    }
  }

  /** What the receiver holds is the beginning of the frames it has not handed out. */
  lemma GotIsPrefix(p: Packer, q: Pipe)
    requires PipeOk(p, q)
    ensures AllEncodable(p, q.channel.log[q.delivered..]) && q.got <= Frames(p, q.channel.log[q.delivered..])
    ensures |Frames(p, q.channel.log)| == |Frames(p, q.channel.log[..q.delivered])| + |Frames(p, q.channel.log[q.delivered..])|
  {
    var log, d, w := q.channel.log, q.delivered, q.channel.wire;
    assert log == log[..d] + log[d..];
    FramesConcat(p, log[..d], log[d..]);
    var head, tail := Frames(p, log[..d]), Frames(p, log[d..]);
    assert w[..q.pos] == (w + Unsent(q.channel))[..q.pos];
    PrefixAfter(head, q.got, tail, q.pos);
  }

  lemma PrefixAfter(head: seq<byte>, got: seq<byte>, tail: seq<byte>, n: nat)
    requires n <= |head| + |tail| && head + got == (head + tail)[..n]
    ensures got <= tail
  {
    assert |got| == n - |head|;
    assert got == (head + got)[|head|..] == (head + tail)[..n][|head|..] == tail[..|got|];
  }

  lemma NextFrame(p: Packer, ms: seq<Message>, got: seq<byte>)
    requires AllEncodable(p, ms) && AllSurvive(p, ms) && got <= Frames(p, ms)
    requires |got| >= HEADER_SIZE && DecodeLength(got[..HEADER_SIZE]) == Ok(|got| - HEADER_SIZE)
    ensures ms != [] && got == Frame(p, ms[0]) && DecodePayload(p, got[HEADER_SIZE..]) == Ok(Normalised(ms[0]))
  {
    var f := Frame(p, ms[0]);
    FrameRoundTrip(p, ms[0]);
    assert got[..HEADER_SIZE] == Frames(p, ms)[..HEADER_SIZE] == f[..HEADER_SIZE];
    assert got == Frames(p, ms)[..|f|] == f;
  }

  lemma FrameReceived(p: Packer, q: Pipe)
    requires PipeOk(p, q) && HasFrame(q)
    ensures q.delivered < Whole(q.channel) && Encodable(p, q.channel.log[q.delivered])
    ensures q.got == Frame(p, q.channel.log[q.delivered])
    ensures DecodePayload(p, q.got[HEADER_SIZE..]) == Ok(Normalised(q.channel.log[q.delivered]))
  {
    GotIsPrefix(p, q);
    NextFrame(p, q.channel.log[q.delivered..], q.got);
    OnWireInFull(p, q);
  }

  lemma ReceivedOk(p: Packer, q: Pipe)
    requires PipeOk(p, q) && q.delivered < Whole(q.channel) && Encodable(p, q.channel.log[q.delivered])
    requires q.got == Frame(p, q.channel.log[q.delivered])
    ensures PipeOk(p, HandedOut(q))
  {
    var log, d, w := q.channel.log, q.delivered, q.channel.wire;
    assert log[..d + 1] == log[..d] + [log[d]];
    FramesAppend(p, log[..d], log[d]);
    assert w[..q.pos] + [] == w[..q.pos];
  }

  /** Handing out takes the first message of the queue, decoded to what its peer normalises it to. */
  lemma ReceiveTakesFirst(p: Packer, q: Pipe)
    requires PipeOk(p, q) && HasFrame(q)
    ensures Queue(q) != [] && DecodePayload(p, q.got[HEADER_SIZE..]) == Ok(Normalised(Queue(q)[0]))
    ensures PipeOk(p, HandedOut(q)) && Queue(HandedOut(q)) == Queue(q)[1..]
  {
    FrameReceived(p, q);
    ReceivedOk(p, q);
  }

  /** A frame received in full has been written in full. */
  lemma OnWireInFull(p: Packer, q: Pipe)
    requires PipeOk(p, q) && q.delivered < |q.channel.log|
    requires Encodable(p, q.channel.log[q.delivered]) && q.got == Frame(p, q.channel.log[q.delivered])
    ensures q.delivered < Whole(q.channel)
  {
    if q.delivered == |q.channel.log| - 1 {
      LastFrameReceived(p, q);
    }
  }

  lemma LastFrameReceived(p: Packer, q: Pipe)
    requires PipeOk(p, q) && q.delivered == |q.channel.log| - 1
    requires Encodable(p, q.channel.log[q.delivered]) && q.got == Frame(p, q.channel.log[q.delivered])
    ensures Unsent(q.channel) == []
  {
    var c, d := q.channel, q.delivered;
    GotIsPrefix(p, q);
    assert c.log[d..] == [c.log[d]] && c.log[d..][1..] == [];
    assert |c.wire| + |Unsent(c)| == |Frames(p, c.log)|;
    assert |Frames(p, c.log[d..])| == |q.got|;
  }
}
