/** The framing of the clamd INSTREAM command, what a daemon reads back from it, and how its reply is classified. */
module Instream {
  import opened Basics
  import opened PythonText
  import Scan = MalwareScan

  const WORD := 0x1_0000_0000
  const RECV_BUFFER := 4096
  const MAX_RESPONSE := 8192

  const ZERO_CHUNK: Bytes := [0, 0, 0, 0]

  /** `struct.pack(">I", n)`. */
  function BigEndian(n: nat): (b: Bytes)
    requires n < WORD
    ensures |b| == 4
  {
    [n / 0x100_0000, n / 0x1_0000 % 256, n / 256 % 256, n % 256]
  }

  function Value(b: Bytes): nat
    requires |b| == 4
  {
    (((b[0] as int) * 256 + b[1]) * 256 + b[2]) * 256 + b[3]
  }

  lemma LengthsRoundTrip(n: nat)
    requires n < WORD
    ensures Value(BigEndian(n)) == n
    ensures BigEndian(n) == ZERO_CHUNK <==> n == 0
  {
    assert n / 0x100_0000 == n / 256 / 256 / 256 && n / 0x1_0000 == n / 256 / 256;
  }

  /** What a daemon makes of the bytes after the command: the stream, and whatever follows its end. */
  datatype Decoded = Decoded(content: Bytes, rest: Bytes) | Malformed

  function Decode(wire: Bytes): Decoded
    decreases |wire|
  {
    if |wire| < 4 then Malformed
    else
      var n := Value(wire[..4]);
      if n == 0 then Decoded([], wire[4..])
      else if |wire| < 4 + n then Malformed
      else
        var next := Decode(wire[4 + n..]);
        if next.Malformed? then Malformed else Decoded(wire[4..4 + n] + next.content, next.rest)
  }

  function Frame(chunk: Bytes): Bytes
    requires |chunk| < WORD
  {
    BigEndian(|chunk|) + chunk
  }

  /** How many of the file's bytes are sent: all of them, or the whole chunks below the limit. */
  function Sent(size: nat, chunkSize: nat, limit: nat): nat
    requires chunkSize > 0
  {
    if size <= limit then size else limit / chunkSize * chunkSize
  }

  function Framed(content: Bytes, chunkSize: nat): Bytes
    requires 0 < chunkSize < WORD
    decreases |content|
  {
    if content == [] then []
    else Frame(content[..Min(chunkSize, |content|)]) + Framed(content[Min(chunkSize, |content|)..], chunkSize)
  }

  datatype Failure = TimedOut | Broken

  /**
   * What may come between: connecting, sending the command, opening the file, reading or sending at an
   * offset of the file, closing the stream, or waiting for the rest of the reply.
   */
  datatype Disturbance =
    | Undisturbed
    | ConnectFails(how: Failure)
    | CommandFails(how: Failure)
    | OpenFails
    | ReadFails(at: nat)
    | SendFails(at: nat, how: Failure)
    | EndFails(how: Failure)
    | ReplyFails(how: Failure)

  /**
   * The streaming loop comes to the call that fails: reads are made up to the end of what is sent, whole
   * chunk by whole chunk.
   */
  predicate Interrupts(size: nat, chunkSize: nat, limit: nat, d: Disturbance)
    requires chunkSize > 0
  {
    var sent := Sent(size, chunkSize, limit);
    match d
    case ReadFails(at) => at <= sent && (at == size || at % chunkSize == 0)
    case SendFails(at, _) => at < sent && at % chunkSize == 0
    case EndFails(_) => true
    case _ => false
  }

  /** The streaming loop: reads chunk by chunk, stops at the limit, and always closes the stream. */
  method Stream(file: Bytes, chunkSize: nat, limit: nat, d: Disturbance)
    returns (wire: Bytes, exceeded: bool, failed: bool)
    requires 0 < chunkSize < WORD
    ensures Sent(|file|, chunkSize, limit) <= |file|
    ensures failed <==> Interrupts(|file|, chunkSize, limit, d)
    ensures failed && !d.EndFails? ==> d.at <= |file| && wire == Framed(file[..d.at], chunkSize)
    ensures !failed ==> (exceeded <==> |file| > limit)
    ensures !failed ==> wire == Framed(file[..Sent(|file|, chunkSize, limit)], chunkSize) + ZERO_CHUNK
  {
    wire, exceeded := [], false;
    SentIsAligned(|file|, chunkSize, limit);
    ghost var sent, bites := Sent(|file|, chunkSize, limit), Interrupts(|file|, chunkSize, limit, d) && !d.EndFails?;
    var total, at := 0, 0;
    while true
      invariant 0 <= at == total <= |file| && total <= limit && !exceeded && at <= sent
      invariant at < |file| ==> at % chunkSize == 0
      invariant wire == Framed(file[..at], chunkSize)
      invariant bites ==> at <= d.at
      decreases |file| - at
    {
      if d == ReadFails(at) {
        return wire, false, true;
      }
      var chunk := file[at..Min(at + chunkSize, |file|)];
      if chunk == [] {
        break;
      }
      total := total + |chunk|;
      if total > limit {
        exceeded := true;
        StopsOnAChunk(|file|, chunkSize, limit, at);
        break;
      }
      MoreIsSent(|file|, chunkSize, limit, at);
      if d.SendFails? && d.at == at {
        return wire, false, true;
      }
      if bites {
        NextOffset(|file|, chunkSize, limit, d, at);
      }
      wire, at := AfterAFrame(file, at, chunkSize, chunk, wire);
    }
    assert at == sent;
    if d.EndFails? {
      return wire, exceeded, true;
    }
    wire, failed := wire + ZERO_CHUNK, false;
  }

  /** One frame more on the wire. */
  method AfterAFrame(file: Bytes, at: nat, chunkSize: nat, chunk: Bytes, wire: Bytes) returns (longer: Bytes, next: nat)
    requires 0 < chunkSize < WORD && at < |file| && at % chunkSize == 0
    requires chunk == file[at..Min(at + chunkSize, |file|)] && wire == Framed(file[..at], chunkSize)
    ensures next == Min(at + chunkSize, |file|) && longer == Framed(file[..next], chunkSize)
    ensures next < |file| ==> next % chunkSize == 0
  {
    FramedAppends(file, at, chunkSize);
    NextChunkIsAligned(at, chunkSize);
    longer, next := wire + Frame(chunk), at + |chunk|;
  }

  lemma MoreIsSent(size: nat, chunkSize: nat, limit: nat, at: nat)
    requires 0 < chunkSize && at < size && at % chunkSize == 0 && Min(at + chunkSize, size) <= limit
    ensures Min(at + chunkSize, size) <= Sent(size, chunkSize, limit)
  {
    if size > limit {
      var q, m := at / chunkSize, limit / chunkSize;
      assert at == q * chunkSize && limit < m * chunkSize + chunkSize;
      assert m <= q ==> m * chunkSize <= q * chunkSize;
      assert m * chunkSize >= (q + 1) * chunkSize;
    }
  }

  lemma NothingBetween(at: nat, chunkSize: nat, other: nat)
    requires chunkSize > 0 && at % chunkSize == 0 && at < other && other % chunkSize == 0
    ensures other >= at + chunkSize
  {
    var p, q := at / chunkSize, other / chunkSize;
    assert at == p * chunkSize && other == q * chunkSize;
    assert q <= p ==> q * chunkSize <= p * chunkSize;
    assert q * chunkSize >= (p + 1) * chunkSize;
  }

  lemma NextOffset(size: nat, chunkSize: nat, limit: nat, d: Disturbance, at: nat)
    requires chunkSize > 0 && Interrupts(size, chunkSize, limit, d) && !d.EndFails?
    requires at % chunkSize == 0 && at < d.at
    ensures Min(at + chunkSize, size) <= d.at
  {
    if d.at % chunkSize == 0 {
      NothingBetween(at, chunkSize, d.at);
    }
  }

  lemma NextChunkIsAligned(at: nat, chunkSize: nat)
    requires chunkSize > 0 && at % chunkSize == 0
    ensures (at + chunkSize) % chunkSize == 0
  {
    var q := at / chunkSize;
    assert at == q * chunkSize;
    Divides(q + 1, chunkSize, 0);
    assert at + chunkSize == (q + 1) * chunkSize;
  }

  lemma Divides(q: nat, d: nat, r: nat)
    requires d > 0 && r < d
    ensures (q * d + r) / d == q && (q * d + r) % d == r
  {
    var n := q * d + r;
    var p := n / d;
    assert n == p * d + n % d;
    assert p < q ==> p * d <= (q - 1) * d;
    assert p > q ==> p * d >= (q + 1) * d;
  }

  lemma StopsOnAChunk(size: nat, chunkSize: nat, limit: nat, at: nat)
    requires 0 < chunkSize && at < size && at % chunkSize == 0 && at <= limit < Min(at + chunkSize, size)
    ensures limit / chunkSize * chunkSize == at && Sent(size, chunkSize, limit) == at
  {
    var q := at / chunkSize;
    assert at == q * chunkSize;
    Divides(q, chunkSize, limit - at);
  }

  lemma FramedFirst(content: Bytes, chunkSize: nat, first: Bytes, rest: Bytes)
    requires 0 < chunkSize < WORD && content != [] && content == first + rest && |first| == Min(chunkSize, |content|)
    ensures Framed(content, chunkSize) == Frame(first) + Framed(rest, chunkSize)
  {
    assert content[..|first|] == first && content[|first|..] == rest;
  }

  /** Whole chunks sent so far, and one more. */
  lemma {:induction false} FramedAppends(file: Bytes, at: nat, chunkSize: nat)
    requires 0 < chunkSize < WORD && at < |file| && at % chunkSize == 0
    ensures var upTo := Min(at + chunkSize, |file|);
            Framed(file[..upTo], chunkSize) == Framed(file[..at], chunkSize) + Frame(file[at..upTo])
    decreases at
  {
    var upTo := Min(at + chunkSize, |file|);
    if at == 0 {
      FramedFirst(file[..upTo], chunkSize, file[..upTo], []);
    } else {
      ChunksBefore(at, chunkSize);
      var first, rest := file[..chunkSize], file[chunkSize..];
      FramedAppends(rest, at - chunkSize, chunkSize);
      SlicesOfTheRest(file, chunkSize, at, upTo);
      FramedFirst(file[..upTo], chunkSize, first, rest[..upTo - chunkSize]);
      FramedFirst(file[..at], chunkSize, first, rest[..at - chunkSize]);
      Associates(Frame(first), Framed(rest[..at - chunkSize], chunkSize), Frame(file[at..upTo]));
    }
  }

  lemma SlicesOfTheRest(file: Bytes, k: nat, a: nat, b: nat)
    requires k <= a <= b <= |file|
    ensures file[k..][a - k..b - k] == file[a..b]
    ensures file[..a] == file[..k] + file[k..][..a - k] && file[..b] == file[..k] + file[k..][..b - k]
  {
  }

  lemma Associates(a: Bytes, b: Bytes, c: Bytes)
    ensures a + (b + c) == (a + b) + c
  {
  }

  lemma ChunksBefore(at: nat, chunkSize: nat)
    requires chunkSize > 0 && at > 0 && at % chunkSize == 0
    ensures at >= chunkSize && (at - chunkSize) % chunkSize == 0
  {
    var q := at / chunkSize;
    assert at == q * chunkSize;
    if q == 0 {
    } else {
      Divides(q - 1, chunkSize, 0);
      assert (q - 1) * chunkSize == at - chunkSize;
    }
  }

  lemma DecodingTheEnd(rest: Bytes)
    ensures Decode(ZERO_CHUNK + rest) == Decoded([], rest)
  {
    var wire := ZERO_CHUNK + rest;
    assert wire[..4] == ZERO_CHUNK && wire[4..] == rest;
  }

  lemma DecodingOneFrame(chunk: Bytes, tail: Bytes, content: Bytes, rest: Bytes)
    requires 0 < |chunk| < WORD && Decode(tail) == Decoded(content, rest)
    ensures Decode(Frame(chunk) + tail) == Decoded(chunk + content, rest)
  {
    var wire, n := Frame(chunk) + tail, |chunk|;
    LengthsRoundTrip(n);
    assert wire[..4] == BigEndian(n);
    assert wire[4..4 + n] == chunk;
    assert wire[4 + n..] == tail;
  }

  /** No data chunk reads as the end of the stream, so the daemon gets back exactly what was framed. */
  lemma {:induction false} DecodingFrames(content: Bytes, chunkSize: nat, rest: Bytes)
    requires 0 < chunkSize < WORD
    ensures Decode(Framed(content, chunkSize) + (ZERO_CHUNK + rest)) == Decoded(content, rest)
    decreases |content|
  {
    if content == [] {
      DecodingTheEnd(rest);
      assert [] + (ZERO_CHUNK + rest) == ZERO_CHUNK + rest;
    } else {
      var n := Min(chunkSize, |content|);
      var first, others := content[..n], content[n..];
      DecodingFrames(others, chunkSize, rest);
      assert content == first + others;
      FramedFirst(content, chunkSize, first, others);
      DecodingOneFrame(first, Framed(others, chunkSize) + (ZERO_CHUNK + rest), others, rest);
      Associates(Frame(first), Framed(others, chunkSize), ZERO_CHUNK + rest);
    }
  }

  /**
   * The round trip: a file within the limit arrives whole; a longer one arrives as the whole chunks
   * that fit, never more than the limit.
   */
  lemma TheDaemonReadsTheFile(file: Bytes, chunkSize: nat, limit: nat)
    requires 0 < chunkSize < WORD && Sent(|file|, chunkSize, limit) <= |file|
    ensures var sent := Sent(|file|, chunkSize, limit);
            && Decode(Framed(file[..sent], chunkSize) + ZERO_CHUNK) == Decoded(file[..sent], [])
            && sent <= limit
            && (|file| <= limit <==> file[..sent] == file)
            && (|file| > limit ==> sent % chunkSize == 0 && limit < sent + chunkSize)
  {
    var sent := Sent(|file|, chunkSize, limit);
    DecodingFrames(file[..sent], chunkSize, []);
    assert ZERO_CHUNK + [] == ZERO_CHUNK;
    SentIsAligned(|file|, chunkSize, limit);
  }

  lemma SentIsAligned(size: nat, chunkSize: nat, limit: nat)
    requires chunkSize > 0
    ensures Sent(size, chunkSize, limit) <= limit
    ensures size > limit ==>
              Sent(size, chunkSize, limit) % chunkSize == 0 && limit < Sent(size, chunkSize, limit) + chunkSize
  {
    Divides(limit / chunkSize, chunkSize, 0);
    assert limit == limit / chunkSize * chunkSize + limit % chunkSize;
  }

  // Reading the reply.

  function FirstNul(b: Bytes): (n: nat)
    ensures n <= |b| && (n < |b| ==> b[n] == 0) && forall i :: 0 <= i < n ==> b[i] != 0
  {
    if b == [] || b[0] == 0 then 0 else 1 + FirstNul(b[1..])
  }

  /**
   * `_read_until` from what is buffered on; the socket hands over one piece a call, and the list ends
   * when it closes: an empty piece would be the end.
   */
  function ReadUntil(data: Bytes, received: seq<Bytes>): Bytes
    decreases |received|
  {
    if received == [] || 0 in data || |data| > MAX_RESPONSE then data else ReadUntil(data + received[0], received[1..])
  }

  ghost predicate NoneEmpty(received: seq<Bytes>) {
    forall i :: 0 <= i < |received| ==> received[i] != []
  }

  /** What precedes the first NUL. */
  function Line(data: Bytes): Bytes {
    data[..FirstNul(data)]
  }

  /** `waiting` tells that the reader asked for more than the pieces given. */
  method ReadReply(received: seq<Bytes>) returns (reply: Bytes, waiting: bool)
    requires NoneEmpty(received)
    ensures reply == Line(ReadUntil([], received))
    ensures waiting <==> 0 !in ReadUntil([], received) && |ReadUntil([], received)| <= MAX_RESPONSE
  {
    var data: Bytes := [];
    var i := 0;
    while 0 !in data && i < |received|
      invariant i <= |received| && |data| <= MAX_RESPONSE
      invariant ReadUntil(data, received[i..]) == ReadUntil([], received)
      decreases |received| - i
    {
      assert received[i..][1..] == received[i + 1..];
      data := data + received[i];
      i := i + 1;
      assert ReadUntil(data, received[i..]) == ReadUntil([], received);
      if |data| > MAX_RESPONSE {
        break;
      }
    }
    assert ReadUntil(data, received[i..]) == data;
    reply, waiting := data[..FirstNul(data)], 0 !in data && |data| <= MAX_RESPONSE;
  }

  lemma {:induction false} FirstNulOfPrefix(a: Bytes, b: Bytes)
    ensures FirstNul(a + b) == if FirstNul(a) < |a| then FirstNul(a) else |a| + FirstNul(b)
  {
    if a == [] {
      assert a + b == b;
    } else {
      FirstNulOfPrefix(a[1..], b);
      assert (a + b)[1..] == a[1..] + b;
    }
  }

  lemma NulIsMembership(b: Bytes)
    ensures FirstNul(b) < |b| <==> 0 in b
  {
  }

  /**
   * However the network cuts the reply, the line up to its NUL is read, as long as at most 8192
   * bytes precede the NUL.
   */
  lemma {:induction false} SegmentationDoesNotMatter(data: Bytes, received: seq<Bytes>)
    requires NoneEmpty(received)
    requires var whole := data + Concat(received); FirstNul(whole) < |whole| && FirstNul(whole) <= MAX_RESPONSE
    ensures Line(ReadUntil(data, received)) == Line(data + Concat(received))
    decreases |received|
  {
    FirstNulOfPrefix(data, Concat(received));
    NulIsMembership(data);
    if received == [] {
      assert data + Concat(received) == data;
    } else if 0 !in data {
      Associates(data, received[0], Concat(received[1..]));
      SegmentationDoesNotMatter(data + received[0], received[1..]);
    }
  }

  /** What is read: the pieces up to the first with a NUL, or up to the bound, or all of them. */
  lemma {:induction false} ReadsUpToTheNul(data: Bytes, received: seq<Bytes>) returns (k: nat)
    ensures k <= |received| && ReadUntil(data, received) == data + Concat(received[..k])
    ensures k < |received| ==> 0 in ReadUntil(data, received) || |ReadUntil(data, received)| > 8192
    ensures forall j :: 0 <= j < k ==> 0 !in data + Concat(received[..j]) && |data + Concat(received[..j])| <= 8192
    decreases |received|
  {
    if received == [] || 0 in data || |data| > MAX_RESPONSE {
      k := 0;
      assert data + [] == data;
    } else {
      var later := ReadsUpToTheNul(data + received[0], received[1..]);
      k := later + 1;
      forall j | 0 < j <= k
        ensures data + Concat(received[..j]) == data + received[0] + Concat(received[1..][..j - 1])
      {
        assert received[..j][1..] == received[1..][..j - 1];
      }
      forall j | 0 <= j < k
        ensures 0 !in data + Concat(received[..j]) && |data + Concat(received[..j])| <= 8192
      {
        assert j > 0 ==> data + Concat(received[..j]) == data + received[0] + Concat(received[1..][..j - 1]);
        assert data + [] == data;
      }
    }
  }

  /** Whatever arrives, no more than the bound and one receive buffer is kept. */
  lemma {:induction false} BufferingIsBounded(data: Bytes, received: seq<Bytes>)
    requires NoneEmpty(received)
    requires |data| <= MAX_RESPONSE + RECV_BUFFER && forall i :: 0 <= i < |received| ==> |received[i]| <= RECV_BUFFER
    ensures |ReadUntil(data, received)| <= MAX_RESPONSE + RECV_BUFFER
    decreases |received|
  {
    if received != [] && 0 !in data && |data| <= MAX_RESPONSE {
      BufferingIsBounded(data + received[0], received[1..]);
    }
  }

  // Classifying it.

  const STREAM_OK := "stream: OK"
  const STREAM_PREFIX := "stream: "
  const FOUND_SUFFIX := " FOUND"
  const ERROR_SUFFIX := " ERROR"

  predicate StartsWith(s: string, prefix: string) {
    |prefix| <= |s| && s[..|prefix|] == prefix
  }

  predicate EndsWith(s: string, suffix: string) {
    |suffix| <= |s| && s[|s| - |suffix|..] == suffix
  }

  function Classify(response: string): Scan.ScanOutcome {
    if response == STREAM_OK then Scan.ClamClean
    else if StartsWith(response, STREAM_PREFIX) && EndsWith(response, FOUND_SUFFIX) then Scan.ClamFound
    else if StartsWith(response, STREAM_PREFIX) && EndsWith(response, ERROR_SUFFIX) then Scan.ClamError
    else Scan.ClamProtocolError
  }

  /**
   * A file counts as clean on one exact reply only, and every well-formed finding is a finding, whatever
   * the signature is called.
   */
  lemma OnlyOneReplyIsClean(response: string, name: string)
    ensures Classify(response) == Scan.ClamClean <==> response == "stream: OK"
    ensures Classify("stream: " + name + " FOUND") == Scan.ClamFound
    ensures Classify("stream: " + name + " ERROR") == Scan.ClamError
  {
    var found, error := "stream: " + name + " FOUND", "stream: " + name + " ERROR";
    assert found[..8] == STREAM_PREFIX && found[|found| - 6..] == FOUND_SUFFIX;
    assert error[..8] == STREAM_PREFIX && error[|error| - 6..] == ERROR_SUFFIX;
    assert found[|found| - 1] == 'D' && error[|error| - 1] == 'R' && STREAM_OK[|STREAM_OK| - 1] == 'K';
    assert error[|error| - 6..][5] == 'R' && FOUND_SUFFIX[5] == 'D';
  }

  /** A reply between the two ends; the blank that ends the one may be the blank that begins the other. */
  ghost predicate Between(response: string, verdict: string) {
    (exists name :: response == "stream: " + name + " " + verdict) || response == "stream: " + verdict
  }

  lemma BetweenItsEnds(response: string, verdict: string)
    requires verdict != "" && ' ' !in verdict
    ensures StartsWith(response, STREAM_PREFIX) && EndsWith(response, " " + verdict) <==> Between(response, verdict)
  {
    var n := |response| - |verdict| - 1;
    if StartsWith(response, STREAM_PREFIX) && EndsWith(response, " " + verdict) {
      assert response == response[..n] + (" " + verdict);
      if n >= 8 {
        assert response == "stream: " + response[8..n] + " " + verdict;
      } else {
        assert response[7] == ' ' && response[n..][7 - n] == (" " + verdict)[7 - n];
        assert n == 7;
        assert response == "stream:" + (" " + verdict);
      }
    }
    if Between(response, verdict) {
      assert response[..8] == "stream: ";
      assert response[n..] == " " + verdict;
    }
  }

  /** Every reply, and what it counts as: anything that is none of the three is a violation of the protocol. */
  lemma ClassifiesExactlyAs(response: string)
    ensures Classify(response) == if response == "stream: OK" then Scan.ClamClean
                                  else if Between(response, "FOUND") then Scan.ClamFound
                                  else if Between(response, "ERROR") then Scan.ClamError
                                  else Scan.ClamProtocolError
  {
    assert " " + "FOUND" == FOUND_SUFFIX && " " + "ERROR" == ERROR_SUFFIX;
    BetweenItsEnds(response, "FOUND");
    BetweenItsEnds(response, "ERROR");
  }

  function OutcomeOf(how: Failure): Scan.ScanOutcome {
    if how.TimedOut? then Scan.ClamTimeout else Scan.ClamUnavailable
  }

  /** All pieces have been handed over and the reader still waits. */
  predicate StillWaiting(received: seq<Bytes>) {
    var data := ReadUntil([], received);
    0 !in data && |data| <= MAX_RESPONSE
  }

  /** The failure the caller is told of, if the scan comes to it. */
  function Disturbed(size: nat, chunkSize: nat, limit: nat, received: seq<Bytes>,
                     d: Disturbance): Option<Scan.ScanOutcome>
    requires chunkSize > 0
  {
    match d
    case Undisturbed => None
    case ConnectFails(how) => Some(OutcomeOf(how))
    case CommandFails(how) => Some(OutcomeOf(how))
    case OpenFails => Some(Scan.ClamUnavailable)
    case ReadFails(_) => if Interrupts(size, chunkSize, limit, d) then Some(Scan.ClamUnavailable) else None
    case SendFails(_, how) => if Interrupts(size, chunkSize, limit, d) then Some(OutcomeOf(how)) else None
    case EndFails(how) => Some(OutcomeOf(how))
    case ReplyFails(how) => if size <= limit && StillWaiting(received) then Some(OutcomeOf(how)) else None
  }

  /**
   * `scan_stream`; `decode` is the lenient UTF-8 decoding of the reply line. `wire` is what was sent after
   * the command in whole frames. A clean verdict takes an undisturbed scan of the whole file.
   */
  method ScanStream(file: Bytes, chunkSize: nat, limit: nat, received: seq<Bytes>, decode: Bytes -> string,
                    d: Disturbance)
    returns (wire: Bytes, outcome: Scan.ScanOutcome)
    requires 0 < chunkSize < WORD && NoneEmpty(received)
    ensures var disturbed := Disturbed(|file|, chunkSize, limit, received, d);
            outcome == if disturbed.Some? then disturbed.value
                       else if |file| > limit then Scan.ClamSizeLimit
                       else Classify(Strip(decode(Line(ReadUntil([], received)))))
    ensures outcome == Scan.ClamClean <==>
            && Disturbed(|file|, chunkSize, limit, received, d).None? && |file| <= limit
            && Strip(decode(Line(ReadUntil([], received)))) == "stream: OK"
    ensures outcome == Scan.ClamClean ==> Decode(wire) == Decoded(file, [])
    ensures Disturbed(|file|, chunkSize, limit, received, d).None? ==>
              && Sent(|file|, chunkSize, limit) <= |file|
              && wire == Framed(file[..Sent(|file|, chunkSize, limit)], chunkSize) + ZERO_CHUNK
  {
    if d.ConnectFails? || d.CommandFails? {
      return [], OutcomeOf(d.how);
    }
    if d.OpenFails? {
      return [], Scan.ClamUnavailable;
    }
    var exceeded, failed;
    wire, exceeded, failed := Stream(file, chunkSize, limit, d);
    if failed {
      return wire, if d.ReadFails? then Scan.ClamUnavailable else OutcomeOf(d.how);
    }
    TheDaemonReadsTheFile(file, chunkSize, limit);
    if exceeded {
      return wire, Scan.ClamSizeLimit;
    }
    var reply, waiting := ReadReply(received);
    if waiting && d.ReplyFails? {
      return wire, OutcomeOf(d.how);
    }
    outcome := Classify(Strip(decode(reply)));
    assert file[..|file|] == file;
  }

  /** A call at this offset is made: chunk by chunk up to the end of what is sent, and at the end of the file. */
  predicate Reaches(size: nat, chunkSize: nat, limit: nat, at: nat)
    requires chunkSize > 0
  {
    (at == size || at % chunkSize == 0) && (if size <= limit then at <= size else at <= limit)
  }

  /**
   * Which failures come to the caller, and as what: a time-out as a time-out and everything else as an
   * unavailable scanner, if the call that fails is made at all.
   */
  lemma DisturbedExactlyWhen(size: nat, chunkSize: nat, limit: nat, received: seq<Bytes>, d: Disturbance)
    requires chunkSize > 0
    ensures var made := match d
              case Undisturbed => false
              case ReadFails(at) => Reaches(size, chunkSize, limit, at)
              case SendFails(at, _) => at % chunkSize == 0 && at < size && (size > limit ==> at + chunkSize <= limit)
              case ReplyFails(_) =>
                size <= limit && forall k :: 0 <= k < |ReadUntil([], received)| ==> ReadUntil([], received)[k] != 0
              case _ => true;
            var timedOut := (d.ConnectFails? || d.CommandFails? || d.SendFails? || d.EndFails? || d.ReplyFails?)
                            && d.how == TimedOut;
            Disturbed(size, chunkSize, limit, received, d)
            == if !made || (d.ReplyFails? && |ReadUntil([], received)| > 8192) then None
               else if timedOut then Some(Scan.ClamTimeout) else Some(Scan.ClamUnavailable)
  {
    SentIsAligned(size, chunkSize, limit);
    if size > limit {
      match d
      case ReadFails(at) =>
        if at % chunkSize == 0 && at <= limit {
          AlignedWithin(at, chunkSize, limit);
        }
      case SendFails(at, _) =>
        if at % chunkSize == 0 {
          AlignedBelow(at, chunkSize, limit);
        }
      case _ =>
    }
  }

  lemma AlignedWithin(at: nat, chunkSize: nat, limit: nat)
    requires chunkSize > 0 && at % chunkSize == 0 && at <= limit
    ensures at <= limit / chunkSize * chunkSize
  {
    var q, m := at / chunkSize, limit / chunkSize;
    assert at == q * chunkSize && limit < m * chunkSize + chunkSize;
    assert q > m ==> q * chunkSize >= (m + 1) * chunkSize;
    assert q <= m ==> q * chunkSize <= m * chunkSize;
  }

  lemma AlignedBelow(at: nat, chunkSize: nat, limit: nat)
    requires chunkSize > 0 && at % chunkSize == 0
    ensures at < limit / chunkSize * chunkSize <==> at + chunkSize <= limit
  {
    var q, m := at / chunkSize, limit / chunkSize;
    assert at == q * chunkSize && m * chunkSize <= limit < m * chunkSize + chunkSize;
    if q < m {
      assert (q + 1) * chunkSize <= m * chunkSize;
    } else {
      assert q * chunkSize >= m * chunkSize;
    }
  }
}
