/**
 * The serial line protocol of the analyser: a command is written, the device
 * echoes it, answers, and ends with a prompt; an exchange that does not reach
 * the prompt is repeated.
 */
module SerialExchange {
  import opened Prelude
  import opened Text

  const PROMPT: seq<byte> := [0x63, 0x68, 0x3E, 0x20]  // "ch> "
  const CR: byte := 0x0D
  const LF: byte := 0x0A
  const CRLF: seq<byte> := [CR, LF]

  // ---- bytes and text -------------------------------------------------------------

  predicate IsAscii(s: string) {
    forall i :: 0 <= i < |s| ==> (s[i] as int) < 128
  }

  function EncodeAscii(s: string): (b: seq<byte>)
    requires IsAscii(s)
    ensures |b| == |s|
  {
    seq(|s|, i requires 0 <= i < |s| => s[i] as int)
  }

  /** `decode("ascii", errors="replace")`. */
  function DecodeAscii(b: seq<byte>): string {
    seq(|b|, i requires 0 <= i < |b| => if b[i] < 128 then b[i] as char else '\U{FFFD}')
  }

  /** The prompt as text, and the two line breaks. */
  lemma PromptText()
    ensures DecodeAscii(PROMPT) == "ch> " && DecodeAscii(CRLF) == "\r\n"
  {
  }

  predicate OccursAt(b: seq<byte>, pattern: seq<byte>, i: nat) {
    i + |pattern| <= |b| && b[i..i + |pattern|] == pattern
  }

  /** The first position of `pattern` in `b`. */
  function Find(b: seq<byte>, pattern: seq<byte>): (r: Option<nat>)
    ensures r.Some? ==> OccursAt(b, pattern, r.value)
  {
    FindFrom(b, pattern, 0)
  }

  function FindFrom(b: seq<byte>, pattern: seq<byte>, i: nat): (r: Option<nat>)
    ensures r.Some? ==> OccursAt(b, pattern, r.value)
    decreases |b| - i
  {
    if i + |pattern| > |b| then None
    else if OccursAt(b, pattern, i) then Some(i)
    else if i < |b| then FindFrom(b, pattern, i + 1)
    else None
  }

  predicate Free(b: seq<byte>, pattern: seq<byte>) {
    Find(b, pattern).None?
  }

  /** `Find` returns the least position at which the pattern occurs. */
  lemma FindIsFirst(b: seq<byte>, pattern: seq<byte>, i: nat)
    requires OccursAt(b, pattern, i)
    ensures Find(b, pattern).Some? && Find(b, pattern).value <= i
  {
    FindFromIsFirst(b, pattern, 0, i);
  }

  lemma {:induction false} FindFromIsFirst(b: seq<byte>, pattern: seq<byte>, from: nat, i: nat)
    requires from <= i && OccursAt(b, pattern, i)
    ensures FindFrom(b, pattern, from).Some? && FindFrom(b, pattern, from).value <= i
    decreases i - from
  {
    if from < i && !OccursAt(b, pattern, from) {
      FindFromIsFirst(b, pattern, from + 1, i);
    }
  }

  function StripStart(b: seq<byte>): seq<byte> {
    if b != [] && (b[0] == CR || b[0] == LF) then StripStart(b[1..]) else b
  }

  function StripEnd(b: seq<byte>): seq<byte> {
    if b != [] && (b[|b| - 1] == CR || b[|b| - 1] == LF) then StripEnd(b[..|b| - 1]) else b
  }

  // ---- the port ------------------------------------------------------------------------

  /**
   * What the device and the line do in one round of reset, write and up to
   * three reads.  Bytes travel in order; of those in transit, `settled` arrive
   * before the reset and are discarded by it; the device answers the write with
   * `reply`; and before each read in turn gives up, `first`, `second` and
   * `third` further bytes have arrived.
   */
  datatype Round = Round(settled: nat, reply: seq<byte>, first: nat, second: nat, third: nat)

  /** The `k`-th round; the device is silent once it has run out. */
  function RoundAt(rounds: seq<Round>, k: nat): Round {
    if k < |rounds| then rounds[k] else Round(0, [], 0, 0, 0)
  }

  function Rest(rounds: seq<Round>, k: nat): seq<Round> {
    if k <= |rounds| then rounds[k..] else []
  }

  lemma NextRound(rounds: seq<Round>, k: nat)
    ensures RoundAt(Rest(rounds, k), 0) == RoundAt(rounds, k) && Rest(Rest(rounds, k), 1) == Rest(rounds, k + 1)
  {
  }

  function UpTo(n: nat, size: nat): (m: nat)
    ensures m <= size
  {
    if n <= size then n else size
  }

  function Head(b: seq<byte>, n: nat): seq<byte> {
    b[..UpTo(n, |b|)]
  }

  function Tail(b: seq<byte>, n: nat): seq<byte> {
    b[UpTo(n, |b|)..]
  }

  /** What is still in transit when the reset has been made: it can no longer be discarded. */
  function Late(transit: seq<byte>, r: Round): seq<byte> {
    Tail(transit, r.settled)
  }

  /** Everything a reader of the round can get to see. */
  function Coming(transit: seq<byte>, r: Round): seq<byte> {
    Late(transit, r) + r.reply
  }

  /** `b` without its first `n` bytes. */
  function After(b: seq<byte>, n: nat): seq<byte> {
    if n <= |b| then b[n..] else []
  }

  /** What comes in a round, byte by byte: of the bytes in transit all but the first `settled`, then the reply. */
  lemma ComingIs(transit: seq<byte>, r: Round)
    ensures Coming(transit, r) == After(transit, r.settled) + r.reply
    ensures var kept := if r.settled <= |transit| then |transit| - r.settled else 0;
      && |Coming(transit, r)| == kept + |r.reply|
      && (forall i :: 0 <= i < kept ==> Coming(transit, r)[i] == transit[r.settled + i])
      && (forall i :: 0 <= i < |r.reply| ==> Coming(transit, r)[kept + i] == r.reply[i])
  {
  }

  /**
   * A serial port with the line and the device behind it.  How `read` chunks
   * what has arrived is left open; it returns nothing only when nothing more arrives.
   */
  class Port {
    var rounds: seq<Round>
    var transit: seq<byte>
    var waits: seq<nat>  // what will have arrived before each read to come gives up
    var buffer: seq<byte>
    var written: seq<seq<byte>>

    function View(): Line
      reads this
    {
      Line(rounds, transit, written)
    }

    constructor (rounds: seq<Round>, transit: seq<byte>)
      ensures this.rounds == rounds && this.transit == transit && buffer == [] && waits == [] && written == []
    {
      this.rounds, this.transit := rounds, transit;
      buffer, waits, written := [], [], [];
    }

    method ResetInputBuffer()
      modifies this`buffer, this`transit
      ensures buffer == [] && transit == Late(old(transit), RoundAt(rounds, 0))
    {
      transit := Tail(transit, RoundAt(rounds, 0).settled);
      buffer := [];
    }

    method Write(data: seq<byte>)
      modifies this`rounds, this`transit, this`waits, this`written
      ensures var r := RoundAt(old(rounds), 0);
        transit == old(transit) + r.reply && waits == [r.first, r.second, r.third]
      ensures written == old(written) + [data] && rounds == Rest(old(rounds), 1)
    {
      written := written + [data];
      var r := RoundAt(rounds, 0);
      transit := transit + r.reply;
      waits := [r.first, r.second, r.third];
      if rounds != [] {
        rounds := rounds[1..];
      }
    }

    /** The line's part in a read: what arrives while it waits. */
    method Await()
      modifies this`transit, this`waits, this`buffer
      ensures var n := if old(waits) == [] then 0 else old(waits)[0];
        buffer == old(buffer) + Head(old(transit), n) && transit == Tail(old(transit), n)
      ensures waits == if old(waits) == [] then [] else old(waits)[1..]
    {
      if waits != [] {
        buffer := buffer + Head(transit, waits[0]);
        transit := Tail(transit, waits[0]);
        waits := waits[1..];
      }
    }

    method Read(size: nat) returns (chunk: seq<byte>)
      requires size > 0
      modifies this`buffer
      ensures old(buffer) == chunk + buffer && |chunk| <= size
      ensures chunk == [] <==> old(buffer) == []
    {
      if buffer == [] {
        return [];
      }
      var n :| 1 <= n <= size && n <= |buffer|;
      chunk := buffer[..n];
      buffer := buffer[n..];
    }

    /** Through the first occurrence of `expected`, or everything that arrives before it gives up. */
    method ReadUntil(expected: seq<byte>) returns (data: seq<byte>)
      requires waits != []
      modifies this`transit, this`waits, this`buffer
      ensures var seen := old(buffer) + Head(old(transit), old(waits)[0]);
        data == Through(seen, expected) && buffer == seen[|data|..]
      ensures transit == Tail(old(transit), old(waits)[0]) && waits == old(waits)[1..]
    {
      Await();
      var n := match Find(buffer, expected) case None => |buffer| case Some(i) => i + |expected|;
      data := buffer[..n];
      buffer := buffer[n..];
    }
  }

  predicate EndsWith(b: seq<byte>, suffix: seq<byte>) {
    |b| >= |suffix| && b[|b| - |suffix|..] == suffix
  }

  function Through(b: seq<byte>, pattern: seq<byte>): (r: seq<byte>)
    ensures r <= b
  {
    match Find(b, pattern)
    case None => b
    case Some(i) => b[..i + |pattern|]
  }

  // ---- one attempt, and several -----------------------------------------------------------

  datatype Reader = Text | Binary(expected: nat)

  datatype Answer = Reply(raw: seq<byte>) | DeviceTimeout | ProtocolError

  /** What the text reader makes of the bytes it gets to see. */
  function ReadText(seen: seq<byte>): Answer {
    if Find(seen, PROMPT).None? then DeviceTimeout else Reply(Through(seen, PROMPT))
  }

  /** How much of what comes is read away as the echoed line: all that its read gets to see, if that holds no line feed. */
  function EchoLength(sent: seq<byte>, r: Round): (n: nat)
    ensures n <= |sent| && n <= r.first
  {
    |Through(Head(sent, r.first), [LF])|
  }

  /** What the binary reader makes of what comes, with its three reads. */
  function ReadBinary(n: nat, sent: seq<byte>, r: Round): Answer {
    var echo := EchoLength(sent, r);
    if |Head(sent, r.first + r.second)| < echo + n then DeviceTimeout
    else if |Head(sent, r.first + r.second + r.third)| < echo + n + |PROMPT| then DeviceTimeout
    else if sent[echo + n..echo + n + |PROMPT|] != PROMPT then ProtocolError
    else Reply(sent[echo..echo + n])
  }

  function Reads(reader: Reader, sent: seq<byte>, r: Round): Answer {
    match reader
    case Text => ReadText(Head(sent, r.first))
    case Binary(n) => ReadBinary(n, sent, r)
  }

  /** How much has arrived when the reader is done: the third read of a binary reply may not take place. */
  function Arrived(reader: Reader, sent: seq<byte>, r: Round): nat {
    match reader
    case Text => r.first
    case Binary(n) =>
      if |Head(sent, r.first + r.second)| < EchoLength(sent, r) + n then r.first + r.second
      else r.first + r.second + r.third
  }

  /** What remains in transit after a round. */
  function Left(reader: Reader, transit: seq<byte>, r: Round): seq<byte> {
    Tail(Coming(transit, r), Arrived(reader, Coming(transit, r), r))
  }

  /** What a round leaves in transit, byte by byte: all that comes in it but what has arrived. */
  lemma LeftIs(reader: Reader, transit: seq<byte>, r: Round)
    ensures var coming, left := Coming(transit, r), Left(reader, transit, r);
      var arrived := Arrived(reader, coming, r);
      && |left| == (if arrived <= |coming| then |coming| - arrived else 0)
      && (forall i :: 0 <= i < |left| ==> left[i] == coming[arrived + i])
    ensures reader.Text? ==> Arrived(reader, Coming(transit, r), r) == r.first
    ensures reader.Binary? && !Reads(reader, Coming(transit, r), r).DeviceTimeout? ==>
      Arrived(reader, Coming(transit, r), r) == r.first + r.second + r.third
  {
  }

  /** What is in transit before round `k`. */
  function Transit(reader: Reader, transit: seq<byte>, rounds: seq<Round>, k: nat): seq<byte> {
    if k == 0 then transit else Left(reader, Transit(reader, transit, rounds, k - 1), RoundAt(rounds, k - 1))
  }

  /** What a port has ahead of it and behind it: rounds to come, bytes in transit, frames written. */
  datatype Line = Line(rounds: seq<Round>, transit: seq<byte>, written: seq<seq<byte>>)

  function AfterRound(l: Line, frame: seq<byte>, reader: Reader): Line {
    Line(Rest(l.rounds, 1), Left(reader, l.transit, RoundAt(l.rounds, 0)), l.written + [frame])
  }

  function AfterRounds(l: Line, frame: seq<byte>, reader: Reader, k: nat): Line {
    if k == 0 then l else AfterRound(AfterRounds(l, frame, reader, k - 1), frame, reader)
  }

  function AnswerIn(reader: Reader, transit: seq<byte>, rounds: seq<Round>, k: nat): Answer {
    var r := RoundAt(rounds, k);
    Reads(reader, Coming(Transit(reader, transit, rounds, k), r), r)
  }

  /** What each of the attempts would come to. */
  function Answers(reader: Reader, transit: seq<byte>, rounds: seq<Round>, attempts: nat): (a: seq<Answer>)
    ensures |a| == attempts
  {
    seq(attempts, k requires 0 <= k < attempts => AnswerIn(reader, transit, rounds, k))
  }

  /** The next round on the line after `k` rounds is the one that the `k`-th answer is about. */
  lemma AnswerAfter(l: Line, frame: seq<byte>, reader: Reader, attempts: nat, k: nat)
    requires k < attempts
    ensures var now := AfterRounds(l, frame, reader, k);
      var r := RoundAt(now.rounds, 0);
      Answers(reader, l.transit, l.rounds, attempts)[k] == Reads(reader, Coming(now.transit, r), r)
  {
    LineAfter(l, frame, reader, k);
  }

  /** The line after `k` rounds: the frame written `k` times, and in transit what the rounds left there. */
  lemma LineAfter(l: Line, frame: seq<byte>, reader: Reader, k: nat)
    ensures AfterRounds(l, frame, reader, k) == LineAt(l, frame, reader, k)
    ensures LineAt(l, frame, reader, k)
         == Line(Rest(l.rounds, k), Transit(reader, l.transit, l.rounds, k), l.written + Repeat(frame, k))
  {
    assert LineAt(l, frame, reader, 0) == l;
    var n: nat := 0;
    while n < k
      invariant n <= k && AfterRounds(l, frame, reader, n) == LineAt(l, frame, reader, n)
    {
      NextLine(l, frame, reader, n);
      n := n + 1;
    }
  }

  function LineAt(l: Line, frame: seq<byte>, reader: Reader, k: nat): Line {
    Line(Rest(l.rounds, k), Transit(reader, l.transit, l.rounds, k), l.written + Repeat(frame, k))
  }

  lemma NextLine(l: Line, frame: seq<byte>, reader: Reader, k: nat)
    ensures AfterRound(LineAt(l, frame, reader, k), frame, reader) == LineAt(l, frame, reader, k + 1)
  {
    NextRound(l.rounds, k);
    RepeatOnce(l.written, frame, k);
  }

  /** The first answer from the `k`-th on that is not a timeout. */
  function FirstAnswer(answers: seq<Answer>, k: nat): Answer
    decreases |answers| - k
  {
    if k >= |answers| then DeviceTimeout
    else if answers[k].DeviceTimeout? then FirstAnswer(answers, k + 1)
    else answers[k]
  }

  /** How many times the command is written for that. */
  function Writes(answers: seq<Answer>, k: nat): nat
    decreases |answers| - k
  {
    if k >= |answers| then 0
    else if answers[k].DeviceTimeout? then 1 + Writes(answers, k + 1)
    else 1
  }

  /** The first `k` attempts have timed out. */
  predicate SoFar(answers: seq<Answer>, k: nat) {
    FirstAnswer(answers, k) == FirstAnswer(answers, 0) && k + Writes(answers, k) == Writes(answers, 0)
  }

  function Repeat(x: seq<byte>, n: nat): seq<seq<byte>> {
    if n == 0 then [] else Repeat(x, n - 1) + [x]
  }

  lemma RepeatOnce(written: seq<seq<byte>>, frame: seq<byte>, n: nat)
    ensures written + Repeat(frame, n) + [frame] == written + Repeat(frame, n + 1)
  {
  }

  datatype SendError = Timeout | BadFraming | CommandRejected | NotAscii

  /** The usage grammar the firmware answers a bad argument with. */
  predicate LooksRejected(body: string) {
    body != "" && ('{' in body || "usage:" <= Lower(DropSpace(body)))
  }

  /** The text between echo and prompt. */
  function Strip(command: string, raw: seq<byte>): string
    requires IsAscii(command) && |raw| >= |PROMPT|
  {
    var body := raw[..|raw| - |PROMPT|];
    var echo := EncodeAscii(command);
    var rest := if echo <= body then body[|echo|..] else body;
    DecodeAscii(StripEnd(StripStart(rest)))
  }

  class TinySA {
    const port: Port
    const attempts: nat

    constructor (port: Port, attempts: nat)
      requires attempts >= 1  // the source raises ValueError otherwise
      ensures this.port == port && this.attempts == attempts
    {
      this.port := port;
      this.attempts := attempts;
    }

    /** Exactly `count` bytes of what is there or arrives before the reading gives up. */
    method ReadExact(count: nat) returns (r: Answer)
      requires port.waits != []
      modifies port`transit, port`waits, port`buffer
      ensures var seen := old(port.buffer) + Head(old(port.transit), old(port.waits)[0]);
        if |seen| < count then r == DeviceTimeout else r == Reply(seen[..count]) && port.buffer == seen[count..]
      ensures port.transit == Tail(old(port.transit), old(port.waits)[0]) && port.waits == old(port.waits)[1..]
    {
      port.Await();
      ghost var seen, transit, waits := port.buffer, port.transit, port.waits;
      var chunks: seq<byte> := [];
      var remaining := count;
      while remaining > 0
        invariant 0 <= remaining && |chunks| + remaining == count
        invariant seen == chunks + port.buffer && port.transit == transit && port.waits == waits
      {
        var chunk := port.Read(remaining);
        if chunk == [] {
          return DeviceTimeout;
        }
        chunks := chunks + chunk;
        remaining := remaining - |chunk|;
      }
      assert seen[..count] == chunks && seen[count..] == port.buffer;
      return Reply(chunks);
    }

    method ReadTextReply(ghost round: Round) returns (r: Answer)
      requires port.buffer == [] && port.waits == [round.first, round.second, round.third]
      modifies port`transit, port`waits, port`buffer
      ensures r == Reads(Text, old(port.transit), round)
      ensures port.transit == Tail(old(port.transit), Arrived(Text, old(port.transit), round))
    {
      ghost var seen := Head(port.transit, round.first);
      EndsInPrompt(seen);
      assert port.buffer + seen == seen;
      var data := port.ReadUntil(PROMPT);
      assert data == Through(seen, PROMPT);
      if !EndsWith(data, PROMPT) {
        return DeviceTimeout;
      }
      return Reply(data);
    }

    /** Reads the echoed line away; that this read may have given up goes unnoticed. */
    method SkipEcho(ghost round: Round)
      requires port.buffer == [] && port.waits == [round.first, round.second, round.third]
      modifies port`transit, port`waits, port`buffer
      ensures port.buffer == Head(old(port.transit), round.first)[EchoLength(old(port.transit), round)..]
      ensures port.transit == Tail(old(port.transit), round.first) && port.waits == [round.second, round.third]
    {
      ghost var seen := Head(port.transit, round.first);
      assert port.buffer + seen == seen;
      var echo := port.ReadUntil([LF]);
      assert |echo| == |Through(seen, [LF])|;
    }

    method ReadBinaryReply(n: nat, ghost round: Round) returns (r: Answer)
      requires port.buffer == [] && port.waits == [round.first, round.second, round.third]
      modifies port`transit, port`waits, port`buffer
      ensures r == Reads(Binary(n), old(port.transit), round)
      ensures port.transit == Tail(old(port.transit), Arrived(Binary(n), old(port.transit), round))
    {
      ghost var sent, e := port.transit, EchoLength(port.transit, round);
      SkipEcho(round);
      var payload := ReadNext(n, sent, e, round.first);
      if !payload.Reply? {
        return DeviceTimeout;
      }
      var prompt := ReadNext(|PROMPT|, sent, e + n, round.first + round.second);
      if !prompt.Reply? {
        return DeviceTimeout;
      }
      if prompt.raw != PROMPT {
        return ProtocolError;
      }
      return payload;
    }

    /** `ReadExact` in terms of everything that comes: `arrived` bytes of it have arrived, `e` have been read. */
    method ReadNext(count: nat, ghost sent: seq<byte>, ghost e: nat, ghost arrived: nat) returns (r: Answer)
      requires port.waits != [] && e <= |Head(sent, arrived)|
      requires port.buffer == Head(sent, arrived)[e..] && port.transit == Tail(sent, arrived)
      modifies port`transit, port`waits, port`buffer
      ensures var now := arrived + old(port.waits)[0];
        && port.transit == Tail(sent, now) && port.waits == old(port.waits)[1..]
        && if |Head(sent, now)| < e + count then r == DeviceTimeout
           else r == Reply(sent[e..e + count]) && port.buffer == Head(sent, now)[e + count..]
    {
      r := ReadExact(count);
    }

    /** One round of `_exchange`: reset, write, read. */
    method Attempt(frame: seq<byte>, reader: Reader) returns (r: Answer)
      modifies port
      ensures var round := RoundAt(old(port.rounds), 0); r == Reads(reader, Coming(old(port.transit), round), round)
      ensures port.View() == AfterRound(old(port.View()), frame, reader)
    {
      ghost var round := RoundAt(port.rounds, 0);
      port.ResetInputBuffer();
      port.Write(frame);
      match reader {
        case Text => r := ReadTextReply(round);
        case Binary(n) => r := ReadBinaryReply(n, round);
      }
    }

    /** The attempt after `k` others, which started with the line as given. */
    method NextAttempt(frame: seq<byte>, reader: Reader, ghost line: Line, ghost k: nat) returns (r: Answer)
      requires k < attempts && port.View() == AfterRounds(line, frame, reader, k)
      modifies port
      ensures r == Answers(reader, line.transit, line.rounds, attempts)[k]
      ensures port.View() == AfterRounds(line, frame, reader, k + 1)
    {
      AnswerAfter(line, frame, reader, attempts, k);
      r := Attempt(frame, reader);
    }

    /**
     * `_exchange`: the answer is that of the first attempt that does not time
     * out; DeviceTimeout comes out exactly when every attempt timed out.
     */
    method Exchange(frame: seq<byte>, reader: Reader) returns (r: Answer)
      modifies port
      ensures var answers := Answers(reader, old(port.transit), old(port.rounds), attempts);
        r == FirstAnswer(answers, 0) && port.View() == AfterRounds(old(port.View()), frame, reader, Writes(answers, 0))
    {
      ghost var line, answers := port.View(), Answers(reader, port.transit, port.rounds, attempts);
      var k := 0;
      while k < attempts
        invariant 0 <= k <= attempts
        invariant port.View() == AfterRounds(line, frame, reader, k) && SoFar(answers, k)
      {
        r := NextAttempt(frame, reader, line, k);
        if !r.DeviceTimeout? {
          return;
        }
        k := k + 1;
      }
      return DeviceTimeout;
    }

    method Send(command: string) returns (r: Result<string, SendError>)
      modifies port
      ensures !IsAscii(command) ==> r == Err(NotAscii) && port.written == old(port.written)
      ensures IsAscii(command) ==>
        r == TextResult(command, FirstAnswer(Answers(Text, old(port.transit), old(port.rounds), attempts), 0))
        && port.View() == AfterRounds(old(port.View()), EncodeAscii(command) + [CR], Text,
                                      Writes(Answers(Text, old(port.transit), old(port.rounds), attempts), 0))
    {
      if !IsAscii(command) {
        port.ResetInputBuffer();
        return Err(NotAscii);
      }
      var answer := Exchange(EncodeAscii(command) + [CR], Text);
      AnswerIsOneOf(Answers(Text, old(port.transit), old(port.rounds), attempts), 0);
      match answer {
        case DeviceTimeout => return Err(Timeout);
        case ProtocolError => return Err(BadFraming);
        case Reply(raw) =>
          var body := Strip(command, raw);
          if LooksRejected(body) {
            return Err(CommandRejected);
          }
          return Ok(body);
      }
    }

    method SendBinary(command: string, expected: nat) returns (r: Result<seq<byte>, SendError>)
      modifies port
      ensures !IsAscii(command) ==> r == Err(NotAscii) && port.written == old(port.written)
      ensures IsAscii(command) ==>
        r == (match FirstAnswer(Answers(Binary(expected), old(port.transit), old(port.rounds), attempts), 0)
              case DeviceTimeout => Err(Timeout)
              case ProtocolError => Err(BadFraming)
              case Reply(raw) => Ok(raw))
        && port.View() == AfterRounds(old(port.View()), EncodeAscii(command) + [CR], Binary(expected),
                                      Writes(Answers(Binary(expected), old(port.transit), old(port.rounds), attempts), 0))
    {
      if !IsAscii(command) {
        port.ResetInputBuffer();
        return Err(NotAscii);
      }
      var answer := Exchange(EncodeAscii(command) + [CR], Binary(expected));
      match answer {
        case DeviceTimeout => return Err(Timeout);
        case ProtocolError => return Err(BadFraming);
        case Reply(raw) => return Ok(raw);
      }
    }
  }

  function TextResult(command: string, a: Answer): Result<string, SendError>
    requires IsAscii(command)
  {
    match a
    case DeviceTimeout => Err(Timeout)
    case ProtocolError => Err(BadFraming)
    case Reply(raw) =>
      if |raw| < |PROMPT| then Err(BadFraming)
      else
        var body := Strip(command, raw);
        if LooksRejected(body) then Err(CommandRejected) else Ok(body)
  }

  /** Reading through the prompt has reached it iff what was read ends in it. */
  lemma EndsInPrompt(seen: seq<byte>)
    ensures var data := Through(seen, PROMPT);
      ReadText(seen) == if EndsWith(data, PROMPT) then Reply(data) else DeviceTimeout
  {
    var data := Through(seen, PROMPT);
    if Free(seen, PROMPT) && |data| >= |PROMPT| {
      assert data[|data| - |PROMPT|..] == PROMPT ==> OccursAt(seen, PROMPT, |data| - |PROMPT|);
      if OccursAt(seen, PROMPT, |data| - |PROMPT|) {
        FindIsFirst(seen, PROMPT, |data| - |PROMPT|);
      }
    }
  }

  lemma {:induction false} AnswerIsOneOf(answers: seq<Answer>, k: nat)
    ensures FirstAnswer(answers, k).DeviceTimeout? || FirstAnswer(answers, k) in answers
    decreases |answers| - k
  {
    if k < |answers| {
      AnswerIsOneOf(answers, k + 1);
    }
  }

  // ---- the promises ------------------------------------------------------------------------------

  predicate TimeOut(answers: seq<Answer>, from: nat, to: nat)
    requires to <= |answers|
  {
    forall j :: from <= j < to ==> answers[j].DeviceTimeout?
  }

  /** The first `k` attempts time out and the next does not: the answer is the next one's, after `k + 1` writes. */
  lemma {:induction false} AnswerOfAttempt(answers: seq<Answer>, from: nat, k: nat)
    requires from <= k < |answers| && TimeOut(answers, from, k) && !answers[k].DeviceTimeout?
    ensures FirstAnswer(answers, from) == answers[k] && Writes(answers, from) == k - from + 1
    decreases k - from
  {
    if from < k {
      AnswerOfAttempt(answers, from + 1, k);
    }
  }

  /** A timeout is reported exactly when every attempt timed out, after writing the command every time. */
  lemma {:induction false} TimeoutOnlyIfAllTimeOut(answers: seq<Answer>, k: nat)
    requires k <= |answers|
    ensures FirstAnswer(answers, k).DeviceTimeout? <==> TimeOut(answers, k, |answers|)
    ensures TimeOut(answers, k, |answers|) ==> Writes(answers, k) == |answers| - k
    decreases |answers| - k
  {
    if k < |answers| {
      TimeoutOnlyIfAllTimeOut(answers, k + 1);
    }
  }

  /** A well-framed text reply: echo, the body on lines of its own, prompt. */
  function Framed(command: string, body: string): seq<byte>
    requires IsAscii(command) && IsAscii(body)
  {
    EncodeAscii(command) + CRLF + (if body == "" then [] else EncodeAscii(body) + CRLF) + PROMPT
  }

  /** No leading or trailing line break. */
  predicate Trimmed(b: seq<byte>) {
    b != [] ==> b[0] != CR && b[0] != LF && b[|b| - 1] != CR && b[|b| - 1] != LF
  }

  /** Before the final prompt of a framed reply no other prompt occurs. */
  lemma FramedHasOnePrompt(head: seq<byte>, tail: seq<byte>, i: nat)
    requires Free(head, PROMPT) && Free(tail, PROMPT)
    requires OccursAt(head + CRLF + tail + PROMPT, PROMPT, i)
    requires tail == [] || tail[|tail| - 1] == LF
    ensures i == |head| + |CRLF| + |tail|
  {
    var all := head + CRLF + tail + PROMPT;
    assert all[i] == PROMPT[0] && all[i + 1] == PROMPT[1] && all[i + 2] == PROMPT[2] && all[i + 3] == PROMPT[3];
    assert all[|head|] == CR && all[|head| + 1] == LF;
    if i + 4 <= |head| {
      assert head[i..i + 4] == all[i..i + 4];
      assert OccursAt(head, PROMPT, i);
      FindIsFirst(head, PROMPT, i);
    }
    if |head| + 2 <= i && i + 4 <= |head| + 2 + |tail| {
      var j := i - |head| - 2;
      assert tail[j..j + 4] == all[i..i + 4];
      assert OccursAt(tail, PROMPT, j);
      FindIsFirst(tail, PROMPT, j);
    }
    assert all[|head| + 2 + |tail| - 1] == LF;
    assert i >= |head| + 2 + |tail|;
  }

  lemma FreeWithLineEnd(body: seq<byte>)
    requires Free(body, PROMPT)
    ensures Free(body + CRLF, PROMPT)
  {
    var b := body + CRLF;
    match Find(b, PROMPT)
    case None =>
    case Some(i) =>
      assert b[i] == PROMPT[0] && b[i + 1] == PROMPT[1] && b[i + 2] == PROMPT[2] && b[i + 3] == PROMPT[3];
      assert b[|body|] == CR && b[|body| + 1] == LF;
      if i + 4 <= |body| {
        assert body[i..i + 4] == b[i..i + 4];
        FindIsFirst(body, PROMPT, i);
      }
  }

  /** The pattern occurs at the end and nowhere else. */
  ghost predicate OnlyAtEnd(b: seq<byte>, pattern: seq<byte>) {
    forall i: nat :: OccursAt(b, pattern, i) <==> i + |pattern| == |b|
  }

  lemma PromptOnlyAtEnd(head: seq<byte>, tail: seq<byte>)
    requires Free(head, PROMPT) && Free(tail, PROMPT)
    requires tail == [] || tail[|tail| - 1] == LF
    ensures OnlyAtEnd(head + CRLF + tail + PROMPT, PROMPT)
  {
    var all := head + CRLF + tail + PROMPT;
    forall i: nat ensures OccursAt(all, PROMPT, i) <==> i + |PROMPT| == |all| {
      if OccursAt(all, PROMPT, i) {
        FramedHasOnePrompt(head, tail, i);
      }
    }
  }

  lemma ReadsWhole(all: seq<byte>)
    requires |all| >= |PROMPT| && OnlyAtEnd(all, PROMPT)
    ensures ReadText(all) == Reply(all)
  {
    FindIsFirst(all, PROMPT, |all| - |PROMPT|);
    assert OccursAt(all, PROMPT, Find(all, PROMPT).value);
    assert all[..|all|] == all;
  }

  /** Read by its first prompt, a framed reply arrives whole exactly when neither its echo nor its body holds one. */
  lemma FramedReads(command: string, body: string)
    requires IsAscii(command) && IsAscii(body)
    ensures ReadText(Framed(command, body)) == Reply(Framed(command, body))
      <==> Free(EncodeAscii(command), PROMPT) && Free(EncodeAscii(body), PROMPT)
  {
    var head, b := EncodeAscii(command), EncodeAscii(body);
    var all := Framed(command, body);
    if !Free(head, PROMPT) {
      PromptCutsShort(all, 0, head);
    } else if !Free(b, PROMPT) {
      assert body != "";
      PromptCutsShort(all, |head| + |CRLF|, b);
    } else {
      FreeWithLineEnd(b);
      PromptOnlyAtEnd(head, if body == "" then [] else b + CRLF);
      ReadsWhole(all);
    }
  }

  /** A prompt inside an earlier part of the reply ends the reading there. */
  lemma PromptCutsShort(all: seq<byte>, at: nat, part: seq<byte>)
    requires at + |part| < |all| && all[at..at + |part|] == part && !Free(part, PROMPT)
    ensures ReadText(all) != Reply(all)
  {
    var i := Find(part, PROMPT).value;
    OccursWithin(all, at, part, PROMPT, i);
    FindIsFirst(all, PROMPT, at + i);
  }

  lemma OccursWithin(all: seq<byte>, at: nat, part: seq<byte>, pattern: seq<byte>, i: nat)
    requires at + |part| <= |all| && all[at..at + |part|] == part && OccursAt(part, pattern, i)
    ensures OccursAt(all, pattern, at + i)
  {
    forall k | 0 <= k < |pattern| ensures all[at + i..at + i + |pattern|][k] == pattern[k] {
      assert part[i..i + |pattern|][k] == part[i + k] == all[at..at + |part|][i + k];
    }
  }

  lemma StripStartOfBreak(b: seq<byte>)
    ensures StripStart(CRLF + b) == StripStart(b)
  {
    var line := [LF] + b;
    assert line[0] == LF && line[1..] == b;
    assert StripStart(line) == StripStart(b);
    assert (CRLF + b)[0] == CR && (CRLF + b)[1..] == line;
  }

  lemma StripEndOfBreak(b: seq<byte>)
    ensures StripEnd(b + CRLF) == StripEnd(b)
  {
    var line := b + [CR];
    assert line[|line| - 1] == CR && line[..|line| - 1] == b;
    assert StripEnd(line) == StripEnd(b);
    assert (b + CRLF)[|b| + 1] == LF && (b + CRLF)[..|b| + 1] == line;
  }

  lemma StripEndsOf(b: seq<byte>)
    requires Trimmed(b)
    ensures StripEnd(StripStart(CRLF + (if b == [] then [] else b + CRLF))) == b
  {
    if b == [] {
      StripStartOfBreak([]);
    } else {
      StripStartOfBreak(b + CRLF);
      StripEndOfBreak(b);
    }
  }

  lemma FramedStrips(command: string, body: string)
    requires IsAscii(command) && IsAscii(body) && Trimmed(EncodeAscii(body))
    ensures Strip(command, Framed(command, body)) == body
  {
    var echo, b := EncodeAscii(command), EncodeAscii(body);
    var raw := Framed(command, body);
    var rest := CRLF + (if b == [] then [] else b + CRLF);
    assert raw == echo + rest + PROMPT;
    assert raw[..|raw| - |PROMPT|] == echo + rest;
    assert (echo + rest)[|echo|..] == rest;
    StripEndsOf(b);
  }

  /** A body that the framing can carry: ASCII, prompt-free, not beginning or ending in a line break. */
  predicate Carried(body: string) {
    IsAscii(body) && Trimmed(EncodeAscii(body)) && Free(EncodeAscii(body), PROMPT)
  }

  function Delivered(body: string): Result<string, SendError> {
    if LooksRejected(body) then Err(CommandRejected) else Ok(body)
  }

  lemma FramedResult(command: string, body: string)
    requires IsAscii(command) && Free(EncodeAscii(command), PROMPT) && Carried(body)
    ensures ReadText(Framed(command, body)).Reply?
    ensures TextResult(command, ReadText(Framed(command, body))) == Delivered(body)
  {
    FramedReads(command, body);
    FramedStrips(command, body);
  }

  /**
   * If in round `k`, the first in which a prompt is seen, all that is in
   * transit has settled when the input is reset, and the reply is well framed
   * and arrives in time, then `send` returns exactly its body after `k + 1`
   * writes, or rejects it as usage text.
   */
  lemma SendReturnsBody(command: string, body: string, transit: seq<byte>, rounds: seq<Round>, attempts: nat, k: nat)
    requires IsAscii(command) && Free(EncodeAscii(command), PROMPT) && Carried(body)
    requires k < attempts && RoundAt(rounds, k).reply == Framed(command, body)
    requires |Framed(command, body)| <= RoundAt(rounds, k).first
    requires |Transit(Text, transit, rounds, k)| <= RoundAt(rounds, k).settled
    requires TimeOut(Answers(Text, transit, rounds, attempts), 0, k)
    ensures var answers := Answers(Text, transit, rounds, attempts);
      TextResult(command, FirstAnswer(answers, 0)) == Delivered(body) && Writes(answers, 0) == k + 1
  {
    var reply := Framed(command, body);
    ComingIs(Transit(Text, transit, rounds, k), RoundAt(rounds, k));
    assert Head(reply, RoundAt(rounds, k).first) == reply;
    assert Coming(Transit(Text, transit, rounds, k), RoundAt(rounds, k)) == reply;
    FramedResult(command, body);
    AnswerOfAttempt(Answers(Text, transit, rounds, attempts), 0, k);
  }

  // ---- what `send` makes of any reply -------------------------------------------------------

  lemma {:induction false} RepeatIs(x: seq<byte>, n: nat)
    ensures |Repeat(x, n)| == n && forall i :: 0 <= i < n ==> Repeat(x, n)[i] == x
  {
    if n > 0 {
      RepeatIs(x, n - 1);
    }
  }

  lemma {:induction false} StartStripped(b: seq<byte>) returns (left: seq<byte>)
    ensures b == left + StripStart(b) && !HasWord(left) && (StripStart(b) != [] ==> !IsBreak(StripStart(b)[0]))
  {
    left := [];
    if b != [] && IsBreak(b[0]) {
      var rest := StartStripped(b[1..]);
      left := [b[0]] + rest;
      assert forall i :: 0 < i < |left| ==> left[i] == rest[i - 1];
    }
  }

  lemma {:induction false} EndStripped(b: seq<byte>) returns (right: seq<byte>)
    ensures b == StripEnd(b) + right && !HasWord(right)
    ensures StripEnd(b) != [] ==> !IsBreak(StripEnd(b)[|StripEnd(b)| - 1]) && StripEnd(b)[0] == b[0]
  {
    right := [];
    if b != [] && IsBreak(b[|b| - 1]) {
      var rest := EndStripped(b[..|b| - 1]);
      right := rest + [b[|b| - 1]];
    }
  }

  /**
   * What `send` reports of a reply, whatever it is: without the prompt, the
   * echo if it comes first, and the line breaks at both ends; a byte that is
   * not ASCII becomes the replacement character.
   */
  lemma StripIs(command: string, raw: seq<byte>) returns (left: seq<byte>, core: seq<byte>, right: seq<byte>)
    requires IsAscii(command) && |raw| >= |PROMPT|
    ensures var body, echo := raw[..|raw| - |PROMPT|], EncodeAscii(command);
      body == (if echo <= body then echo else []) + left + core + right
    ensures !HasWord(left) && !HasWord(right) && (core != [] ==> !IsBreak(core[0]) && !IsBreak(core[|core| - 1]))
    ensures |Strip(command, raw)| == |core|
    ensures forall i :: 0 <= i < |core| ==>
      Strip(command, raw)[i] == if core[i] < 128 then core[i] as char else '\U{FFFD}'
  {
    var body, echo := raw[..|raw| - |PROMPT|], EncodeAscii(command);
    var front := if echo <= body then echo else [];
    assert body == front + body[|front|..];
    left, core, right := BreaksStripped(body[|front|..]);
    Associates(front, left, core, right);
  }

  lemma Associates(a: seq<byte>, b: seq<byte>, c: seq<byte>, d: seq<byte>)
    ensures a + (b + c + d) == a + b + c + d
  {
  }

  lemma BreaksStripped(b: seq<byte>) returns (left: seq<byte>, core: seq<byte>, right: seq<byte>)
    ensures core == StripEnd(StripStart(b)) && b == left + core + right
    ensures !HasWord(left) && !HasWord(right) && (core != [] ==> !IsBreak(core[0]) && !IsBreak(core[|core| - 1]))
  {
    left := StartStripped(b);
    right := EndStripped(StripStart(b));
    core := StripEnd(StripStart(b));
    assert left + (core + right) == left + core + right;
  }

  /** Upper or lower case of a small letter. */
  predicate SameLetter(c: char, small: char) {
    c == small || ('A' <= c <= 'Z' && c as int + 32 == small as int)
  }

  /** After white space, "usage:" in any letter case. */
  predicate UsageAt(body: string, n: nat) {
    && n + 6 <= |body| && (forall i :: 0 <= i < n ==> IsSpace(body[i]))
    && (forall i :: 0 <= i < 6 ==> SameLetter(body[n + i], "usage:"[i]))
  }

  lemma {:induction false} SpaceEndsAt(s: string) returns (k: nat)
    ensures k <= |s| && (forall i :: 0 <= i < k ==> IsSpace(s[i])) && (k < |s| ==> !IsSpace(s[k])) && DropSpace(s) == s[k..]
  {
    k := 0;
    if s != "" && IsSpace(s[0]) {
      var rest := SpaceEndsAt(s[1..]);
      k := rest + 1;
      assert forall i :: 0 < i < k ==> s[i] == s[1..][i - 1];
    }
  }

  /** A body is rejected exactly if it has an opening brace or starts with "usage:". */
  lemma RejectedIff(body: string)
    ensures LooksRejected(body) <==> (exists i :: 0 <= i < |body| && body[i] == '{') || (exists n :: UsageAt(body, n))
  {
    var k := SpaceEndsAt(body);
    var low, usage := Lower(body[k..]), "usage:";
    forall n: nat | UsageAt(body, n) ensures n == k && usage <= low {
      assert SameLetter(body[n], usage[0]);
      assert forall i :: 0 <= i < 6 ==> low[i] == LowerChar(body[k + i]);
      assert forall i :: 0 <= i < 6 ==> SameLetter(body[n + i], usage[i]);
    }
    if usage <= low {
      forall i | 0 <= i < 6 ensures SameLetter(body[k + i], usage[i]) {
        assert low[i] == usage[i];
      }
      assert UsageAt(body, k);
    }
  }

  /** A timeout iff every attempt timed out; otherwise the reply's text, or its rejection; never a framing error. */
  lemma SendOutcome(command: string, transit: seq<byte>, rounds: seq<Round>, attempts: nat)
    requires IsAscii(command)
    ensures var answers := Answers(Text, transit, rounds, attempts);
      var a, r := FirstAnswer(answers, 0), TextResult(command, FirstAnswer(answers, 0));
      && (r == Err(Timeout) <==> TimeOut(answers, 0, attempts))
      && (a.Reply? ==> |a.raw| >= |PROMPT| && r == Delivered(Strip(command, a.raw)))
      && (a.Reply? || a.DeviceTimeout?)
  {
    var answers := Answers(Text, transit, rounds, attempts);
    TimeoutOnlyIfAllTimeOut(answers, 0);
    AnswerIsOneOf(answers, 0);
  }

  // ---- late bytes of earlier replies ------------------------------------------------------------

  predicate IsBreak(c: byte) {
    c == CR || c == LF
  }

  predicate HasWord(b: seq<byte>) {
    exists i :: 0 <= i < |b| && !IsBreak(b[i])
  }

  lemma {:induction false} LastWord(b: seq<byte>) returns (p: nat)
    requires HasWord(b)
    ensures p < |b| && !IsBreak(b[p]) && forall i :: p < i < |b| ==> IsBreak(b[i])
  {
    var n := |b| - 1;
    if !IsBreak(b[n]) {
      p := n;
    } else {
      var i :| 0 <= i < |b| && !IsBreak(b[i]);
      assert !IsBreak(b[..n][i]);
      p := LastWord(b[..n]);
      forall j | p < j < |b| ensures IsBreak(b[j]) {
        assert j < n ==> b[j] == b[..n][j];
      }
    }
  }

  lemma {:induction false} StartKeepsWord(b: seq<byte>)
    requires HasWord(b)
    ensures HasWord(StripStart(b))
  {
    if IsBreak(b[0]) {
      var i :| 0 <= i < |b| && !IsBreak(b[i]);
      assert !IsBreak(b[1..][i - 1]);
      StartKeepsWord(b[1..]);
    }
  }

  lemma {:induction false} EndKeepsWord(b: seq<byte>)
    requires HasWord(b)
    ensures StripEnd(b) != []
  {
    if IsBreak(b[|b| - 1]) {
      var i :| 0 <= i < |b| && !IsBreak(b[i]);
      assert !IsBreak(b[..|b| - 1][i]);
      EndKeepsWord(b[..|b| - 1]);
    }
  }

  /** Whatever comes before the echo, a command's last word is left over after stripping the echo. */
  lemma LateLeavesWord(late: seq<byte>, cmd: seq<byte>)
    requires late != [] && HasWord(cmd)
    ensures var body := late + cmd + CRLF; HasWord(if cmd <= body then body[|cmd|..] else body)
  {
    var body := late + cmd + CRLF;
    var p := LastWord(cmd);
    var q := |late| + p;
    assert body[q] == cmd[p];
    if cmd <= body {
      assert forall i :: 0 <= i < |cmd| ==> body[i] == cmd[i];
      assert q >= |cmd|;
      assert !IsBreak(body[|cmd|..][q - |cmd|]);
    }
  }

  lemma LateWithoutPrompt(command: string, late: seq<byte>)
    requires IsAscii(command) && late != [] && HasWord(EncodeAscii(command))
    requires Free(late + EncodeAscii(command), PROMPT)
    ensures TextResult(command, ReadText(late + Framed(command, ""))) != Ok("")
  {
    var cmd := EncodeAscii(command);
    var all := (late + cmd) + CRLF + [] + PROMPT;
    assert late + Framed(command, "") == all;
    assert Free([], PROMPT);
    PromptOnlyAtEnd(late + cmd, []);
    ReadsWhole(all);
    assert all[..|all| - |PROMPT|] == late + cmd + CRLF;
    LateLeavesWord(late, cmd);
    StripKeepsWord(command, all, late + cmd + CRLF);
  }

  lemma StripKeepsWord(command: string, raw: seq<byte>, body: seq<byte>)
    requires IsAscii(command) && |raw| >= |PROMPT| && raw[..|raw| - |PROMPT|] == body
    requires var cmd := EncodeAscii(command); HasWord(if cmd <= body then body[|cmd|..] else body)
    ensures Strip(command, raw) != ""
  {
    var cmd := EncodeAscii(command);
    var rest := if cmd <= body then body[|cmd|..] else body;
    StartKeepsWord(rest);
    EndKeepsWord(StripStart(rest));
    assert |Strip(command, raw)| == |StripEnd(StripStart(rest))|;
  }

  /** Once a prompt has come, what follows it makes no difference. */
  lemma FirstPromptDecides(front: seq<byte>, rest: seq<byte>, other: seq<byte>)
    requires !Free(front, PROMPT)
    ensures ReadText(front + rest) == ReadText(front + other)
  {
    FirstOccurrenceStays(front, rest, PROMPT);
    FirstOccurrenceStays(front, other, PROMPT);
    var n := Find(front, PROMPT).value + |PROMPT|;
    assert (front + rest)[..n] == front[..n] == (front + other)[..n];
  }

  lemma LateWithPrompt(command: string, late: seq<byte>)
    requires IsAscii(command) && !Free(late + EncodeAscii(command), PROMPT)
    ensures TextResult(command, ReadText(late + Framed(command, "")))
         == TextResult(command, ReadText(late + Framed(command, "0")))
  {
    var cmd := EncodeAscii(command);
    var short, long := CRLF + PROMPT, CRLF + (EncodeAscii("0") + CRLF) + PROMPT;
    assert late + Framed(command, "") == (late + cmd) + short;
    assert late + Framed(command, "0") == (late + cmd) + long;
    FirstPromptDecides(late + cmd, short, long);
  }

  /**
   * Exactly when nothing of an earlier reply is in transit at the reset does
   * every well-framed reply come through: any late byte spoils some reply.
   */
  lemma NoLeakIffNothingLate(command: string, late: seq<byte>)
    requires IsAscii(command) && Free(EncodeAscii(command), PROMPT) && HasWord(EncodeAscii(command))
    ensures (forall body :: Carried(body) ==>
               TextResult(command, ReadText(late + Framed(command, body))) == Delivered(body))
      <==> late == []
  {
    if late == [] {
      forall body | Carried(body)
        ensures TextResult(command, ReadText(late + Framed(command, body))) == Delivered(body)
      {
        assert late + Framed(command, body) == Framed(command, body);
        FramedResult(command, body);
      }
    } else {
      DigitsCarried();
      if Free(late + EncodeAscii(command), PROMPT) {
        LateWithoutPrompt(command, late);
      } else {
        LateWithPrompt(command, late);
      }
    }
  }

  lemma DigitsCarried()
    ensures Carried("") && Carried("0") && Delivered("") == Ok("") && Delivered("0") == Ok("0")
  {
    var zero := EncodeAscii("0");
    assert zero == [0x30] && zero[1..] == [];
    assert Find([], PROMPT).None?;
    assert Lower(DropSpace("0")) == "0";
  }

  /** Such a run: the reply to the first attempt is late, and is taken for the reply to the second. */
  lemma LateReplyTaken(command: string, stale: string, body: string, attempts: nat)
    requires IsAscii(command) && Free(EncodeAscii(command), PROMPT) && Carried(stale) && Carried(body) && attempts >= 2
    ensures var answers := Answers(Text, [], OneRoundLate(Framed(command, stale), Framed(command, body)), attempts);
      TextResult(command, FirstAnswer(answers, 0)) == Delivered(stale) && Writes(answers, 0) == 2
  {
    var first, second := Framed(command, stale), Framed(command, body);
    LateAnswers(first, second, attempts);
    FramedResult(command, stale);
    FirstPromptDecides(first, second, []);
    assert first + [] == first;
  }

  /** The first reply arrives, whole, only after the second reset, and the second right behind it. */
  function OneRoundLate(first: seq<byte>, second: seq<byte>): seq<Round> {
    [Round(0, first, 0, 0, 0), Round(0, second, |first| + |second|, 0, 0)]
  }

  lemma LateAnswers(first: seq<byte>, second: seq<byte>, attempts: nat)
    requires attempts >= 2
    ensures var answers := Answers(Text, [], OneRoundLate(first, second), attempts);
      answers[0] == DeviceTimeout && answers[1] == ReadText(first + second)
  {
    var rounds := OneRoundLate(first, second);
    assert Transit(Text, [], rounds, 1) == Left(Text, Transit(Text, [], rounds, 0), RoundAt(rounds, 0));
    BothArrive(first, second);
  }

  lemma BothArrive(first: seq<byte>, second: seq<byte>)
    ensures var r := Round(0, second, |first| + |second|, 0, 0); Reads(Text, Coming(first, r), r) == ReadText(first + second)
  {
    assert first[0..] == first;
    assert (first + second)[..|first| + |second|] == first + second;
  }

  // ---- binary payloads ------------------------------------------------------------------------------

  /** What comes in a round: late bytes and echo, the line's end, payload and prompt. */
  function BinaryReply(line: seq<byte>, payload: seq<byte>): seq<byte> {
    line + CRLF + payload + PROMPT
  }

  /** The read that skips the echo sees its line feed, and the rest arrives before its own reads give up. */
  predicate InTime(line: seq<byte>, payload: seq<byte>, r: Round) {
    && |line| + |CRLF| <= r.first
    && |line| + |CRLF| + |payload| <= r.first + r.second
    && |BinaryReply(line, payload)| <= r.first + r.second + r.third
  }

  /** The binary reader decided: what it makes of an echoed line, a payload and what stands in the prompt's place, by how much is in time. */
  lemma BinaryOutcome(line: seq<byte>, payload: seq<byte>, tail: seq<byte>, r: Round)
    requires Free(line, [LF]) && |line| + |CRLF| <= r.first && |tail| == |PROMPT|
    ensures ReadBinary(|payload|, line + CRLF + payload + tail, r) ==
      if r.first + r.second < |line| + |CRLF| + |payload| then DeviceTimeout
      else if r.first + r.second + r.third < |line| + |CRLF| + |payload| + |PROMPT| then DeviceTimeout
      else if tail == PROMPT then Reply(payload)
      else ProtocolError
  {
    var sent := line + CRLF + payload + tail;
    var n := |line| + 1;
    EchoEnds(line, payload + tail, r);
    assert sent == line + CRLF + (payload + tail);
    assert sent[n + 1..n + 1 + |payload|] == payload;
    assert sent[n + 1 + |payload|..n + 1 + |payload| + |PROMPT|] == tail;
  }

  lemma EchoEnds(line: seq<byte>, rest: seq<byte>, r: Round)
    requires Free(line, [LF]) && |line| + |CRLF| <= r.first
    ensures EchoLength(line + CRLF + rest, r) == |line| + |CRLF|
  {
    var k := r.first - |line| - |CRLF|;
    assert Head(line + CRLF + rest, r.first) == line + CRLF + Head(rest, k);
    LineEndsAt(line, Head(rest, k));
  }

  lemma BinaryRead(line: seq<byte>, payload: seq<byte>, r: Round)
    requires Free(line, [LF]) && InTime(line, payload, r)
    ensures ReadBinary(|payload|, BinaryReply(line, payload), r) == Reply(payload)
  {
    BinaryOutcome(line, payload, PROMPT, r);
  }

  lemma LineEndsAt(line: seq<byte>, rest: seq<byte>)
    requires Free(line, [LF])
    ensures Find(line + CRLF + rest, [LF]) == Some(|line| + 1)
  {
    var all := line + CRLF + rest;
    assert OccursAt(all, [LF], |line| + 1);
    forall j: nat | j < |line| + 1 ensures !OccursAt(all, [LF], j) {
      if j < |line| {
        if OccursAt(line, [LF], j) {
          FindIsFirst(line, [LF], j);
        }
      } else {
        assert all[j..j + 1][0] == CR;
      }
    }
    FindLeast(all, [LF], |line| + 1);
  }

  /**
   * A binary payload comes back byte for byte, prompts and line feeds
   * included, whenever the rest is in time, exactly if the line before it -
   * late bytes and echo - has no line feed and its own line feed arrives before
   * the first read gives up, whose giving up goes unnoticed.
   */
  lemma BinaryExactIff(line: seq<byte>, first: nat)
    ensures (forall payload, second, third :: RestInTime(line, payload, first, second, third) ==>
               ReadBinary(|payload|, BinaryReply(line, payload), Round(0, [], first, second, third)) == Reply(payload))
      <==> Free(line, [LF]) && |line| + |CRLF| <= first
  {
    if Free(line, [LF]) && |line| + |CRLF| <= first {
      forall payload, second, third | RestInTime(line, payload, first, second, third)
        ensures ReadBinary(|payload|, BinaryReply(line, payload), Round(0, [], first, second, third)) == Reply(payload)
      {
        BinaryRead(line, payload, Round(0, [], first, second, third));
      }
    } else {
      var payload := LineEndMissed(line, Round(0, [], first, |line| + 7, 0));
      assert RestInTime(line, payload, first, |line| + 7, 0);
    }
  }

  predicate RestInTime(line: seq<byte>, payload: seq<byte>, first: nat, second: nat, third: nat) {
    |line| + |CRLF| + |payload| <= first + second && |BinaryReply(line, payload)| <= first + second + third
  }

  /** If the echo's read stops before the payload, some payload is misread. */
  lemma LineEndMissed(line: seq<byte>, r: Round) returns (payload: seq<byte>)
    requires !Free(line, [LF]) || r.first < |line| + |CRLF|
    ensures |payload| == 1 && ReadBinary(|payload|, BinaryReply(line, payload), r) != Reply(payload)
  {
    var front := line + CRLF;
    var e := if r.first < |front| then |Through(front[..r.first], [LF])| else |Through(front, [LF])|;
    ThroughLine(line, r.first);
    var next: byte := front[e];
    payload := [if next == 0 then 1 else 0];
    EchoWithin(line, payload + PROMPT, r);
    assert BinaryReply(line, payload) == front + (payload + PROMPT);
    OneByteRead(front + (payload + PROMPT), r, payload);
  }

  lemma OneByteRead(sent: seq<byte>, r: Round, payload: seq<byte>)
    requires |payload| == 1 && EchoLength(sent, r) < |sent| && sent[EchoLength(sent, r)] != payload[0]
    ensures ReadBinary(1, sent, r) != Reply(payload)
  {
    var e := EchoLength(sent, r);
    assert sent[e..e + 1][0] == sent[e];
  }

  /** An echo read that sees no line feed, or an early one, ends inside the line. */
  lemma ThroughLine(line: seq<byte>, first: nat)
    requires !Free(line, [LF]) || first < |line| + |CRLF|
    ensures var front := line + CRLF;
      (if first < |front| then |Through(front[..first], [LF])| else |Through(front, [LF])|) < |front|
  {
    var front := line + CRLF;
    if first >= |front| {
      FirstOccurrenceStays(line, CRLF, [LF]);
    }
  }

  lemma EchoWithin(line: seq<byte>, rest: seq<byte>, r: Round)
    requires !Free(line, [LF]) || r.first < |line| + |CRLF|
    ensures var front := line + CRLF;
      EchoLength(front + rest, r) == if r.first < |front| then |Through(front[..r.first], [LF])| else |Through(front, [LF])|
  {
    var front := line + CRLF;
    if r.first < |front| {
      assert Head(front + rest, r.first) == front[..r.first];
    } else {
      var seen := Head(front + rest, r.first);
      assert seen == front + seen[|front|..];
      FirstOccurrenceStays(line, CRLF, [LF]);
      FirstOccurrenceStays(front, seen[|front|..], [LF]);
    }
  }

  lemma LateEcho(late: seq<byte>, command: seq<byte>, payload: seq<byte>)
    ensures late + BinaryReply(command, payload) == BinaryReply(late + command, payload)
  {
  }

  /** Over a whole exchange: the first attempts time out, and in round `k` late bytes, echo, payload and prompt arrive in time. */
  lemma BinaryPayloadExact(command: seq<byte>, payload: seq<byte>, transit: seq<byte>, rounds: seq<Round>, attempts: nat, k: nat)
    requires k < attempts && RoundAt(rounds, k).reply == BinaryReply(command, payload)
    requires var late := After(Transit(Binary(|payload|), transit, rounds, k), RoundAt(rounds, k).settled);
      Free(late + command, [LF]) && InTime(late + command, payload, RoundAt(rounds, k))
    requires TimeOut(Answers(Binary(|payload|), transit, rounds, attempts), 0, k)
    ensures var answers := Answers(Binary(|payload|), transit, rounds, attempts);
      FirstAnswer(answers, 0) == Reply(payload) && Writes(answers, 0) == k + 1
  {
    var late := After(Transit(Binary(|payload|), transit, rounds, k), RoundAt(rounds, k).settled);
    ComingIs(Transit(Binary(|payload|), transit, rounds, k), RoundAt(rounds, k));
    LateEcho(late, command, payload);
    BinaryRead(late + command, payload, RoundAt(rounds, k));
    AnswerOfAttempt(Answers(Binary(|payload|), transit, rounds, attempts), 0, k);
  }

  lemma {:induction false} FindLeast(b: seq<byte>, pattern: seq<byte>, i: nat)
    requires OccursAt(b, pattern, i) && forall j: nat :: j < i ==> !OccursAt(b, pattern, j)
    ensures Find(b, pattern) == Some(i)
  {
    FindIsFirst(b, pattern, i);
    assert OccursAt(b, pattern, Find(b, pattern).value);
  }

  lemma FirstOccurrenceStays(front: seq<byte>, rest: seq<byte>, pattern: seq<byte>)
    requires !Free(front, pattern)
    ensures Find(front + rest, pattern) == Find(front, pattern)
  {
    var i := Find(front, pattern).value;
    var all := front + rest;
    assert all[..|front|] == front;
    OccursWithin(all, 0, front, pattern, i);
    forall j: nat | j < i ensures !OccursAt(all, pattern, j) {
      if OccursAt(front, pattern, j) {
        FindIsFirst(front, pattern, j);
      }
    }
    FindLeast(all, pattern, i);
  }

}
