/**
 * The shared-token handshake: the dialing side presents its token, the
 * accepting side compares it and answers with a one-byte acknowledgement.
 */
module Handshake {
  import opened Prelude
  import opened Framing

  const MAX_TOKEN: nat := 0xFFFF
  const LENGTH_SIZE: nat := 2
  const ACK_OK: seq<byte> := [1]
  const ACK_FAIL: seq<byte> := [0]

  /** What the dialing side writes. */
  function Hello(token: seq<byte>): (b: seq<byte>)
    requires |token| <= MAX_TOKEN
    ensures |b| == LENGTH_SIZE + |token|
  {
    BigEndian(|token|, LENGTH_SIZE) + token
  }

  /** On the wire: two bytes of length, high byte first, then the token. */
  lemma HelloBytes(token: seq<byte>)
    requires |token| <= MAX_TOKEN
    ensures var b := Hello(token);
      |b| == 2 + |token| && b[0] as int * 256 + b[1] as int == |token| && b[2..] == token
  {
    HelloHeader(token);
    var h := Hello(token)[..LENGTH_SIZE];
    assert h[..1][..0] == [] && FromBigEndian(h[..1]) == h[0];
  }

  lemma HelloHeader(token: seq<byte>)
    requires |token| <= MAX_TOKEN
    ensures FromBigEndian(Hello(token)[..LENGTH_SIZE]) == |token|
    ensures Hello(token)[LENGTH_SIZE..] == token
  {
    BigEndianRoundTrip(|token|, LENGTH_SIZE);
    assert Hello(token)[..LENGTH_SIZE] == BigEndian(|token|, LENGTH_SIZE);
  }

  lemma HelloPrefix(token: seq<byte>, stream: seq<byte>)
    requires |token| <= MAX_TOKEN && Hello(token) <= stream
    ensures FromBigEndian(stream[..LENGTH_SIZE]) == |token| <= |stream| - LENGTH_SIZE
  {
    HelloHeader(token);
    assert stream[..LENGTH_SIZE] == Hello(token)[..LENGTH_SIZE];
  }

  // ---- the two sides as methods on a socket -----------------------------------

  datatype Outcome = Success | AuthenticationError | PeerGone | HandshakeTimeout

  class TokenSecurity {
    const token: seq<byte>

    constructor (token: seq<byte>)
      requires |token| <= MAX_TOKEN  // the source raises ValueError for a longer one
      ensures this.token == token
    {
      this.token := token;
    }

    /** The dialing side. */
    method Present(sock: ByteStream) returns (r: Outcome)
      requires |token| <= MAX_TOKEN
      modifies sock
      ensures sock.outgoing == old(sock.outgoing) + Hello(token)
      ensures r == Success ==> old(sock.incoming) == ACK_OK + sock.incoming && sock.open == old(sock.open)
      ensures r == AuthenticationError ==>
        |old(sock.incoming)| > 0 && old(sock.incoming)[..1] != ACK_OK
        && sock.incoming == old(sock.incoming)[1..] && !sock.open
      ensures r == PeerGone ==> old(sock.incoming) == []
      ensures r == HandshakeTimeout ==> sock.hasTimeout
    {
      sock.SendAll(Hello(token));
      var ack, _ := sock.RecvExact(1);
      match ack {
        case TimedOut => return HandshakeTimeout;
        case Closed => return PeerGone;
        case Data(b) =>
          if b != ACK_OK {
            sock.Close();
            return AuthenticationError;
          }
          return Success;
      }
    }

    /** The accepting side: reads one presented token and not a byte more. */
    method Verify(sock: ByteStream) returns (r: Outcome, ghost presented: seq<byte>)
      requires |token| <= MAX_TOKEN
      modifies sock
      ensures r == Success || r == AuthenticationError ==>
        |presented| <= MAX_TOKEN && old(sock.incoming) == Hello(presented) + sock.incoming
      ensures r == Success ==>
        presented == token && sock.outgoing == old(sock.outgoing) + ACK_OK && sock.open == old(sock.open)
      ensures r == AuthenticationError ==>
        presented != token && sock.outgoing == old(sock.outgoing) + ACK_FAIL && !sock.open
      ensures r == PeerGone ==>
        sock.outgoing == old(sock.outgoing)
        && forall t: seq<byte> :: |t| <= MAX_TOKEN ==> !(Hello(t) <= old(sock.incoming))
      ensures r == HandshakeTimeout ==> sock.hasTimeout && sock.outgoing == old(sock.outgoing)
    {
      ghost var start := sock.incoming;
      var header, _ := sock.RecvExact(LENGTH_SIZE);
      presented := [];
      if header.TimedOut? {
        return HandshakeTimeout, [];
      }
      if header.Closed? {
        return PeerGone, [];
      }
      var length := FromBigEndian(header.b);
      FromBigEndianRoundTrip(header.b);
      ghost var afterHeader := sock.incoming;
      assert start[..LENGTH_SIZE] == header.b;
      var body, _ := sock.RecvExact(length);
      if body.TimedOut? {
        return HandshakeTimeout, [];
      }
      if body.Closed? {
        forall t: seq<byte> | |t| <= MAX_TOKEN
          ensures !(Hello(t) <= start)
        {
          if Hello(t) <= start {
            HelloPrefix(t, start);
          }
        }
        return PeerGone, [];
      }
      presented := body.b;
      assert start == Hello(presented) + sock.incoming;
      if body.b == token {
        sock.SendAll(ACK_OK);
        return Success, presented;
      }
      sock.SendAll(ACK_FAIL);
      sock.Close();
      return AuthenticationError, presented;
    }
  }

  // ---- both sides together, over chunked channels ------------------------------

  datatype Dialer = Sending(unsent: seq<byte>) | AwaitingAck | Admitted | Refused

  datatype Acceptor = ReadingLength(got: seq<byte>) | ReadingToken(length: nat, got: seq<byte>) | Accepted | Rejected

  /** Bytes in flight each way, and the frame bytes written after the handshake. */
  datatype Net = Net(toHub: seq<byte>, toDialer: seq<byte>, dialer: Dialer, acceptor: Acceptor,
                     dialerFrames: seq<byte>, hubFrames: seq<byte>)

  function Start(dialToken: seq<byte>): Net
    requires |dialToken| <= MAX_TOKEN
  {
    Net([], [], Sending(Hello(dialToken)), ReadingLength([]), [], [])
  }

  datatype Step =
    | DialWrites(n: nat)         // a piece of the dialer's sendall
    | HubReads(n: nat)           // one recv on the accepting side
    | DialReadsAck
    | DialFrame(b: seq<byte>)    // once admitted, framed traffic may follow at once
    | HubFrame(b: seq<byte>)

  predicate Handshaking(step: Step) {
    step.DialWrites? || step.HubReads? || step.DialReadsAck?
  }

  /** How many bytes the accepting side asks its next `recv` for. */
  function Wanted(a: Acceptor): int {
    match a
    case ReadingLength(got) => LENGTH_SIZE - |got|
    case ReadingToken(n, got) => n - |got|
    case _ => 0
  }

  /** The accepting side once a complete token has been read. */
  function Decide(net: Net, presented: seq<byte>, hubToken: seq<byte>): Net {
    if presented == hubToken then net.(acceptor := Accepted, toDialer := net.toDialer + ACK_OK)
    else net.(acceptor := Rejected, toDialer := net.toDialer + ACK_FAIL)
  }

  function AfterHubRead(net: Net, n: nat, hubToken: seq<byte>): Net
    requires n <= |net.toHub|
  {
    var chunk := net.toHub[..n];
    var rest := net.(toHub := net.toHub[n..]);
    match net.acceptor
    case ReadingLength(got) =>
      var acc := got + chunk;
      if |acc| < LENGTH_SIZE then rest.(acceptor := ReadingLength(acc))
      else if FromBigEndian(acc) > 0 then rest.(acceptor := ReadingToken(FromBigEndian(acc), []))
      else Decide(rest, [], hubToken)
    case ReadingToken(length, got) =>
      var acc := got + chunk;
      if |acc| < length then rest.(acceptor := ReadingToken(length, acc))
      else Decide(rest, acc, hubToken)
    case _ => rest
  }

  predicate Enabled(net: Net, step: Step) {
    match step
    case DialWrites(n) => net.dialer.Sending? && 0 < n <= |net.dialer.unsent|
    case HubReads(n) => 0 < n <= Wanted(net.acceptor) && n <= |net.toHub|
    case DialReadsAck => net.dialer.AwaitingAck? && net.toDialer != []
    case DialFrame(b) => net.dialer.Admitted?
    case HubFrame(b) => net.acceptor.Accepted?
  }

  function Apply(net: Net, step: Step, hubToken: seq<byte>): Net
    requires Enabled(net, step)
  {
    match step
    case DialWrites(n) =>
      var unsent := net.dialer.unsent;
      net.(toHub := net.toHub + unsent[..n],
           dialer := if n == |unsent| then AwaitingAck else Sending(unsent[n..]))
    case HubReads(n) => AfterHubRead(net, n, hubToken)
    case DialReadsAck =>
      net.(toDialer := net.toDialer[1..],
           dialer := if net.toDialer[..1] == ACK_OK then Admitted else Refused)
    case DialFrame(b) => net.(toHub := net.toHub + b, dialerFrames := net.dialerFrames + b)
    case HubFrame(b) => net.(toDialer := net.toDialer + b, hubFrames := net.hubFrames + b)
  }

  ghost predicate IsRun(dialToken: seq<byte>, hubToken: seq<byte>, run: seq<Net>, steps: seq<Step>)
    requires |dialToken| <= MAX_TOKEN
  {
    && |run| == |steps| + 1 && run[0] == Start(dialToken)
    && forall i :: 0 <= i < |steps| ==> Enabled(run[i], steps[i]) && run[i + 1] == Apply(run[i], steps[i], hubToken)
  }

  // ---- invariant ----------------------------------------------------------------

  function Unsent(d: Dialer): seq<byte> {
    if d.Sending? then d.unsent else []
  }

  /** The bytes the accepting side has consumed. */
  function Taken(a: Acceptor, hello: seq<byte>): seq<byte>
    requires |hello| >= LENGTH_SIZE
  {
    match a
    case ReadingLength(got) => got
    case ReadingToken(_, got) => hello[..LENGTH_SIZE] + got
    case _ => hello
  }

  predicate MidRead(a: Acceptor, hello: seq<byte>)
    requires |hello| >= LENGTH_SIZE
  {
    match a
    case ReadingLength(got) => |got| < LENGTH_SIZE
    case ReadingToken(n, got) => n == |hello| - LENGTH_SIZE && |got| < n <= MAX_TOKEN
    case _ => true
  }

  ghost predicate Inv(net: Net, dialToken: seq<byte>, hubToken: seq<byte>)
    requires |dialToken| <= MAX_TOKEN
  {
    var hello := Hello(dialToken);
    && MidRead(net.acceptor, hello)
    && Taken(net.acceptor, hello) + (net.toHub + Unsent(net.dialer)) == hello + net.dialerFrames
    && (net.dialer.Sending? ==> net.dialer.unsent != [])
    && (!net.dialer.Admitted? ==> net.dialerFrames == [])
    && (!net.acceptor.Accepted? ==> net.hubFrames == [])
    && (net.acceptor.Accepted? ==>
          && dialToken == hubToken && !net.dialer.Refused?
          && net.toDialer == (if net.dialer.Admitted? then [] else ACK_OK) + net.hubFrames)
    && (net.acceptor.Rejected? ==>
          && dialToken != hubToken && !net.dialer.Admitted?
          && net.toDialer == if net.dialer.Refused? then [] else ACK_FAIL)
    && (net.acceptor.ReadingLength? || net.acceptor.ReadingToken? ==>
          net.toDialer == [] && (net.dialer.Sending? || net.dialer.AwaitingAck?))
    && (net.acceptor.Accepted? || net.acceptor.Rejected? ==> !net.dialer.Sending?)
  }

  /** One `recv` by the accepting side moves the boundary between taken and pending by `n` bytes. */
  lemma HubReadMovesBoundary(net: Net, n: nat, dialToken: seq<byte>, hubToken: seq<byte>)
    requires |dialToken| <= MAX_TOKEN && Inv(net, dialToken, hubToken) && Enabled(net, HubReads(n))
    ensures var hello := Hello(dialToken); var chunk := net.toHub[..n];
      var taken := Taken(net.acceptor, hello) + chunk;
      && taken == hello[..|taken|]
      && (net.acceptor.ReadingLength? && |taken| == LENGTH_SIZE ==>
            FromBigEndian(net.acceptor.got + chunk) == |dialToken|)
      && (net.acceptor.ReadingToken? && |taken| == |hello| ==> net.acceptor.got + chunk == dialToken)
      && taken + (net.toHub[n..] + Unsent(net.dialer)) == hello
  {
    var hello := Hello(dialToken);
    HelloHeader(dialToken);
    var chunk := net.toHub[..n];
    var taken := Taken(net.acceptor, hello) + chunk;
    assert hello + net.dialerFrames == hello;
  }

  lemma LengthReadKeepsInv(net: Net, n: nat, dialToken: seq<byte>, hubToken: seq<byte>)
    requires |dialToken| <= MAX_TOKEN && Inv(net, dialToken, hubToken) && Enabled(net, HubReads(n))
    requires net.acceptor.ReadingLength?
    ensures Inv(AfterHubRead(net, n, hubToken), dialToken, hubToken)
  {
    HubReadMovesBoundary(net, n, dialToken, hubToken);
    var hello := Hello(dialToken);
    assert hello[..|hello|] == hello && hello + [] == hello;
    assert hello[..LENGTH_SIZE] + [] == hello[..LENGTH_SIZE];
  }

  lemma TokenReadKeepsInv(net: Net, n: nat, dialToken: seq<byte>, hubToken: seq<byte>)
    requires |dialToken| <= MAX_TOKEN && Inv(net, dialToken, hubToken) && Enabled(net, HubReads(n))
    requires net.acceptor.ReadingToken?
    ensures Inv(AfterHubRead(net, n, hubToken), dialToken, hubToken)
  {
    HubReadMovesBoundary(net, n, dialToken, hubToken);
    var hello := Hello(dialToken);
    assert hello[..|hello|] == hello && hello + [] == hello;
    Regroup(hello[..LENGTH_SIZE], net.acceptor.got, net.toHub[..n]);
  }

  lemma Regroup(a: seq<byte>, b: seq<byte>, c: seq<byte>)
    ensures a + (b + c) == (a + b) + c
  {
  }

  lemma HubReadKeepsInv(net: Net, n: nat, dialToken: seq<byte>, hubToken: seq<byte>)
    requires |dialToken| <= MAX_TOKEN && Inv(net, dialToken, hubToken) && Enabled(net, HubReads(n))
    ensures Inv(AfterHubRead(net, n, hubToken), dialToken, hubToken)
  {
    if net.acceptor.ReadingLength? {
      LengthReadKeepsInv(net, n, dialToken, hubToken);
    } else {
      TokenReadKeepsInv(net, n, dialToken, hubToken);
    }
  }

  lemma StepKeepsInv(net: Net, step: Step, dialToken: seq<byte>, hubToken: seq<byte>)
    requires |dialToken| <= MAX_TOKEN && Inv(net, dialToken, hubToken) && Enabled(net, step)
    ensures Inv(Apply(net, step, hubToken), dialToken, hubToken)
  {
    var hello := Hello(dialToken);
    var b := Taken(net.acceptor, hello);
    var net' := Apply(net, step, hubToken);
    match step
    case DialWrites(n) =>
      var u := net.dialer.unsent;
      assert u == u[..n] + Unsent(net'.dialer);
      assert net'.toHub + Unsent(net'.dialer) == net.toHub + u;
    case HubReads(n) => HubReadKeepsInv(net, n, dialToken, hubToken);
    case DialReadsAck =>
      assert ACK_OK[0] != ACK_FAIL[0];
      assert net.acceptor.Accepted? ==> net.toDialer[..1] == ACK_OK && net'.toDialer == net.hubFrames;
      assert net.acceptor.Rejected? ==> net.toDialer[..1] == ACK_FAIL && net'.toDialer == [];
      assert net'.toHub + Unsent(net'.dialer) == net.toHub + Unsent(net.dialer);
    case DialFrame(f) =>
      assert b + (net'.toHub + []) == (b + (net.toHub + [])) + f;
      assert hello + net'.dialerFrames == (hello + net.dialerFrames) + f;
    case HubFrame(f) =>
      assert net'.toDialer == (if net.dialer.Admitted? then [] else ACK_OK) + net'.hubFrames;
  }

  lemma {:induction false} RunInv(dialToken: seq<byte>, hubToken: seq<byte>, run: seq<Net>, steps: seq<Step>, i: nat)
    requires |dialToken| <= MAX_TOKEN && IsRun(dialToken, hubToken, run, steps) && i < |run|
    ensures Inv(run[i], dialToken, hubToken)
  {
    if i == 0 {
    } else {
      RunInv(dialToken, hubToken, run, steps, i - 1);
      StepKeepsInv(run[i - 1], steps[i - 1], dialToken, hubToken);
    }
  }

  // ---- the promises ---------------------------------------------------------------

  predicate Done(net: Net) {
    (net.dialer.Admitted? || net.dialer.Refused?) && (net.acceptor.Accepted? || net.acceptor.Rejected?)
  }

  /**
   * In every state of every run, whatever the chunking: a side that has
   * finished has the outcome the tokens dictate, the two never disagree, and
   * what a successful side finds unread is exactly the framed traffic.
   */
  lemma HandshakeAgreement(dialToken: seq<byte>, hubToken: seq<byte>, run: seq<Net>, steps: seq<Step>, i: nat)
    requires |dialToken| <= MAX_TOKEN && IsRun(dialToken, hubToken, run, steps) && i < |run|
    ensures run[i].dialer.Admitted? ==> dialToken == hubToken && run[i].acceptor.Accepted?
    ensures run[i].dialer.Refused? ==> dialToken != hubToken && run[i].acceptor.Rejected?
    ensures run[i].acceptor.Accepted? ==> dialToken == hubToken && run[i].toHub == run[i].dialerFrames
    ensures run[i].acceptor.Rejected? ==> dialToken != hubToken && run[i].toHub == []
    ensures run[i].dialer.Admitted? ==> run[i].toDialer == run[i].hubFrames
    ensures Done(run[i]) ==> (run[i].dialer.Admitted? <==> dialToken == hubToken)
  {
    RunInv(dialToken, hubToken, run, steps, i);
    if run[i].acceptor.Accepted? || run[i].acceptor.Rejected? {
      FinishedNet(run[i], dialToken, hubToken);
    }
  }

  lemma FinishedNet(net: Net, dialToken: seq<byte>, hubToken: seq<byte>)
    requires |dialToken| <= MAX_TOKEN && Inv(net, dialToken, hubToken)
    requires net.acceptor.Accepted? || net.acceptor.Rejected?
    ensures net.toHub == net.dialerFrames
    ensures net.dialer.Admitted? || net.dialer.Refused? || net.dialer.AwaitingAck?
  {
    var hello := Hello(dialToken);
    assert (hello + (net.toHub + []))[|hello|..] == net.toHub;
    assert (hello + net.dialerFrames)[|hello|..] == net.dialerFrames;
  }

  /** Bytes still to be read by the accepting side, and the decision. */
  function Reading(a: Acceptor): nat {
    match a
    case ReadingLength(got) => 2 * MAX_TOKEN + 10 + if |got| <= LENGTH_SIZE then LENGTH_SIZE - |got| else 0
    case ReadingToken(n, got) => 2 + if |got| <= n then n - |got| else 0
    case _ => 0
  }

  /** Bytes still to be written and read: bounds the handshake steps that remain. */
  function Work(net: Net): nat {
    |Unsent(net.dialer)| + Reading(net.acceptor) + if net.dialer.Sending? || net.dialer.AwaitingAck? then 1 else 0
  }

  lemma StepUsesWork(net: Net, step: Step, dialToken: seq<byte>, hubToken: seq<byte>)
    requires |dialToken| <= MAX_TOKEN && Inv(net, dialToken, hubToken) && Enabled(net, step)
    ensures var after := Work(Apply(net, step, hubToken));
      if Handshaking(step) then after < Work(net) else after == Work(net)
  {
    match step
    case HubReads(n) => HubReadUsesWork(net, n, hubToken);
    case _ =>
  }

  lemma HubReadUsesWork(net: Net, n: nat, hubToken: seq<byte>)
    requires 0 < n <= Wanted(net.acceptor) && n <= |net.toHub|
    ensures Work(AfterHubRead(net, n, hubToken)) < Work(net)
  {
    if net.acceptor.ReadingLength? {
      LengthReadUsesWork(net, n, hubToken);
    }
  }

  lemma LengthReadUsesWork(net: Net, n: nat, hubToken: seq<byte>)
    requires net.acceptor.ReadingLength? && 0 < n <= Wanted(net.acceptor) && n <= |net.toHub|
    ensures Reading(AfterHubRead(net, n, hubToken).acceptor) < Reading(net.acceptor)
    ensures AfterHubRead(net, n, hubToken).dialer == net.dialer
  {
    var acc := net.acceptor.got + net.toHub[..n];
  }

  lemma SomeStepEnabled(net: Net, dialToken: seq<byte>, hubToken: seq<byte>)
    requires |dialToken| <= MAX_TOKEN && Inv(net, dialToken, hubToken) && !Done(net)
    ensures exists step :: Handshaking(step) && Enabled(net, step)
  {
    var hello := Hello(dialToken);
    HelloHeader(dialToken);
    assert |Taken(net.acceptor, hello)| + |net.toHub| + |Unsent(net.dialer)| == |hello| + |net.dialerFrames|;
    if net.dialer.Sending? {
      assert Handshaking(DialWrites(1)) && Enabled(net, DialWrites(1));
    } else if net.acceptor.Accepted? || net.acceptor.Rejected? {
      assert Handshaking(DialReadsAck) && Enabled(net, DialReadsAck);
    } else {
      assert Handshaking(HubReads(1)) && Enabled(net, HubReads(1));
    }
  }

  /** Neither deadlock nor livelock: until both sides are done some handshake step is enabled, and each one uses up work. */
  lemma HandshakeProgress(dialToken: seq<byte>, hubToken: seq<byte>, run: seq<Net>, steps: seq<Step>, i: nat)
    requires |dialToken| <= MAX_TOKEN && IsRun(dialToken, hubToken, run, steps) && i < |run|
    ensures !Done(run[i]) ==> exists step :: Handshaking(step) && Enabled(run[i], step)
    ensures forall step :: Enabled(run[i], step) ==>
      var after := Work(Apply(run[i], step, hubToken));
      if Handshaking(step) then after < Work(run[i]) else after == Work(run[i])
  {
    RunInv(dialToken, hubToken, run, steps, i);
    if !Done(run[i]) {
      SomeStepEnabled(run[i], dialToken, hubToken);
    }
    forall step | Enabled(run[i], step)
      ensures var after := Work(Apply(run[i], step, hubToken));
        if Handshaking(step) then after < Work(run[i]) else after == Work(run[i])
    {
      StepUsesWork(run[i], step, dialToken, hubToken);
    }
  }
}
