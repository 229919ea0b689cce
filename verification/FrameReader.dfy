/** The bounded line reader of the command host and the request loop on top of it.

The reader consumes a buffered stream whose bytes arrive in chunks of any size. Its specification,
`FrameOf`, looks only at the bytes: take at most limit + 1 of them, stop after the first newline. */
module FrameReader {
  import opened Common

  const NEWLINE: Byte := 10

  // ---------------------------------------------------------------- the reference reader

  function Take(s: seq<Byte>, n: nat): seq<Byte> {
    if |s| <= n then s else s[..n]
  }

  function UntilNewline(s: seq<Byte>): seq<Byte> {
    if s == [] then []
    else if s[0] == NEWLINE then [s[0]]
    else [s[0]] + UntilNewline(s[1..])
  }

  function FrameOf(s: seq<Byte>, limit: nat): seq<Byte> {
    UntilNewline(Take(s, limit + 1))
  }

  /** A request: one newline, at the end, within the limit. */
  predicate IsRequest(line: seq<Byte>, limit: nat) {
    && 0 < |line| <= limit
    && line[|line| - 1] == NEWLINE
    && forall i :: 0 <= i < |line| - 1 ==> line[i] != NEWLINE
  }

  /** The requests the host dispatches from a stream: the frames up to the first unusable one. */
  function Requests(s: seq<Byte>, limit: nat): seq<seq<Byte>>
    decreases |s|
  {
    FrameShape(s, limit);
    var f := FrameOf(s, limit);
    if IsRequest(f, limit) then [f] + Requests(s[|f|..], limit) else []
  }

  lemma {:induction false} UntilNewlineShape(s: seq<Byte>)
    ensures UntilNewline(s) <= s
    ensures forall i :: 0 <= i < |UntilNewline(s)| - 1 ==> s[i] != NEWLINE
    ensures UntilNewline(s) == s || (|UntilNewline(s)| > 0 && s[|UntilNewline(s)| - 1] == NEWLINE)
  {
    if s != [] && s[0] != NEWLINE {
      UntilNewlineShape(s[1..]);
      assert s == [s[0]] + s[1..];
    }
  }

  /** A frame is a prefix of the stream of at most limit + 1 bytes, with no newline before its end, and
  it stops only at a newline, at the bound, or at the end of the stream. */
  lemma FrameShape(s: seq<Byte>, limit: nat)
    ensures FrameOf(s, limit) <= s && |FrameOf(s, limit)| <= limit + 1
    ensures forall i :: 0 <= i < |FrameOf(s, limit)| - 1 ==> s[i] != NEWLINE
    ensures || FrameOf(s, limit) == s
            || |FrameOf(s, limit)| == limit + 1
            || (|FrameOf(s, limit)| > 0 && s[|FrameOf(s, limit)| - 1] == NEWLINE)
  {
    UntilNewlineShape(Take(s, limit + 1));
  }

  /** The shape determines the frame. */
  lemma {:induction false} UntilNewlineUnique(s: seq<Byte>, n: nat)
    requires n <= |s|
    requires forall i :: 0 <= i < n - 1 ==> s[i] != NEWLINE
    requires n == |s| || (n > 0 && s[n - 1] == NEWLINE)
    ensures UntilNewline(s) == s[..n]
    decreases n
  {
    if n > 0 && s[0] != NEWLINE {
      UntilNewlineUnique(s[1..], n - 1);
      assert s[..n] == [s[0]] + s[1..][..n - 1];
    }
  }

  lemma FrameUnique(s: seq<Byte>, limit: nat, n: nat)
    requires n <= |s| && n <= limit + 1
    requires forall i :: 0 <= i < n - 1 ==> s[i] != NEWLINE
    requires n == |s| || n == limit + 1 || (n > 0 && s[n - 1] == NEWLINE)
    ensures FrameOf(s, limit) == s[..n]
  {
    var t := Take(s, limit + 1);
    UntilNewlineUnique(t, n);
    assert t[..n] == s[..n];
  }

  lemma {:induction false} FlattenAppend(a: seq<seq<Byte>>, b: seq<seq<Byte>>)
    ensures Flatten(a + b) == Flatten(a) + Flatten(b)
  {
    if a == [] {
      assert a + b == b;
    } else {
      calc {
        Flatten(a + b);
      == { assert (a + b)[0] == a[0] && (a + b)[1..] == a[1..] + b; }
        a[0] + Flatten(a[1..] + b);
      == { FlattenAppend(a[1..], b); }
        a[0] + (Flatten(a[1..]) + Flatten(b));
      == // concatenation is associative
        Flatten(a) + Flatten(b);
      }
    }
  }

  /** From position `from`, no newline within the limit: the next frame cannot be a request. */
  ghost predicate NoRequestAt(s: seq<Byte>, from: nat, limit: nat) {
    forall i :: from <= i < from + limit && i < |s| ==> s[i] != NEWLINE
  }

  lemma FlattenHead(parts: seq<seq<Byte>>)
    requires parts != []
    ensures Flatten(parts) == parts[0] + Flatten(parts[1..])
    ensures |Flatten(parts)| == |parts[0]| + |Flatten(parts[1..])|
  {
  }

  lemma NoRequestShift(s: seq<Byte>, cut: nat, from: nat, limit: nat)
    requires cut <= |s|
    ensures NoRequestAt(s[cut..], from, limit) <==> NoRequestAt(s, cut + from, limit)
  {
    var tail := s[cut..];
    if NoRequestAt(tail, from, limit) {
      forall i | cut + from <= i < cut + from + limit && i < |s|
        ensures s[i] != NEWLINE
      {
        assert s[i] == tail[i - cut];
      }
    }
    if NoRequestAt(s, cut + from, limit) {
      assert forall i :: from <= i < from + limit && i < |tail| ==> tail[i] == s[cut + i];
    }
  }

  /** The dispatched requests are exactly the complete in-limit lines before the first bad frame: they
  tile a prefix of the stream and what follows has no newline within the limit. */
  lemma {:induction false} RequestsTile(s: seq<Byte>, limit: nat)
    ensures forall r :: r in Requests(s, limit) ==> IsRequest(r, limit)
    ensures Flatten(Requests(s, limit)) <= s
    ensures NoRequestAt(s, |Flatten(Requests(s, limit))|, limit)
    decreases |s|
  {
    FrameShape(s, limit);
    var f := FrameOf(s, limit);
    if IsRequest(f, limit) {
      var tail := s[|f|..];
      RequestsTile(tail, limit);
      var rest := Requests(tail, limit);
      assert Requests(s, limit) == [f] + rest;
      FlattenHead([f] + rest);
      assert ([f] + rest)[1..] == rest;
      assert s == f + tail;
      NoRequestShift(s, |f|, |Flatten(rest)|, limit);
    } else {
      NoRequestAtStart(s, limit);
    }
  }

  lemma NoRequestAtStart(s: seq<Byte>, limit: nat)
    ensures NoRequestAt(s, 0, limit) <==> !IsRequest(FrameOf(s, limit), limit)
  {
    FrameShape(s, limit);
    var f := FrameOf(s, limit);
    assert f == s[..|f|];
    if IsRequest(f, limit) {
      assert s[|f| - 1] == NEWLINE;
    }
  }

  /** Any line list with those two properties starts with the first frame and goes on the same way. */
  lemma LinesHead(s: seq<Byte>, limit: nat, lines: seq<seq<Byte>>)
    requires lines != [] && IsRequest(lines[0], limit)
    requires Flatten(lines) <= s && NoRequestAt(s, |Flatten(lines)|, limit)
    ensures |lines[0]| <= |s| && FrameOf(s, limit) == lines[0]
    ensures Flatten(lines[1..]) <= s[|lines[0]|..] && NoRequestAt(s[|lines[0]|..], |Flatten(lines[1..])|, limit)
  {
    var line := lines[0];
    FlattenHead(lines);
    var all := Flatten(lines);
    assert s[..|all|] == all && all[..|line|] == line && all[|line|..] == Flatten(lines[1..]);
    assert s[..|line|] == line;
    assert forall i :: 0 <= i < |line| ==> s[i] == line[i];
    FrameUnique(s, limit, |line|);
    var tail := s[|line|..];
    assert tail[..|Flatten(lines[1..])|] == Flatten(lines[1..]);
    NoRequestShift(s, |line|, |Flatten(lines[1..])|, limit);
  }

  /** And they are the only such list. */
  lemma {:induction false} RequestsUnique(s: seq<Byte>, limit: nat, lines: seq<seq<Byte>>)
    requires forall i :: 0 <= i < |lines| ==> IsRequest(lines[i], limit)
    requires Flatten(lines) <= s && NoRequestAt(s, |Flatten(lines)|, limit)
    ensures lines == Requests(s, limit)
    decreases |s|
  {
    FrameShape(s, limit);
    if lines == [] {
      NoRequestAtStart(s, limit);
    } else {
      LinesHead(s, limit, lines);
      RequestsUnique(s[|lines[0]|..], limit, lines[1..]);
    }
  }

  // ---------------------------------------------------------------- the incremental reader

  datatype ReadError = TimedOut | Io

  datatype ReadResult = Frame(bytes: seq<Byte>) | Failed(error: ReadError)

  /** What the reader asked the clock and the descriptor: `count` is how many bytes a fill left in the buffer. */
  datatype Look =
    | Clock(at: nat)
    | Waited(error: bool, timedOut: bool, at: nat)
    | Filled(failed: bool, count: nat, at: nat)

  predicate BroughtBytes(look: Look) {
    look.Filled? && !look.failed && look.count > 0
  }

  /** The looks of one read and its budgets. `started` is the look at the clock that follows the first bytes. */
  datatype Log = Log(looks: seq<Look>, started: Option<nat>, idle: nat, frame: nat)

  /** When a look must have happened: within the idle budget of the call, or, once bytes have come, within the frame
  budget of the first of them. */
  function Due(log: Log, i: nat): nat
    requires log.looks != [] && (log.started.Some? ==> log.started.value < |log.looks|)
  {
    if log.started.Some? && log.started.value < i then log.looks[log.started.value].at + log.frame
    else log.looks[0].at + log.idle
  }

  /** One look of a read. Whatever is not the last one found the time not yet due and did not fail. */
  ghost predicate LookOk(log: Log, i: nat)
    requires i < |log.looks| && (log.started.Some? ==> log.started.value < |log.looks|)
  {
    var n, looks := |log.looks|, log.looks;
    && (i > 0 ==> looks[i - 1].at <= looks[i].at)
    && match looks[i]
       case Clock(at) => i == 0 || log.started == Some(i) || i + 1 == n || at < Due(log, i)
       case Waited(error, timedOut, at) =>
         && i > 0 && looks[i - 1].Clock? && looks[i - 1].at < Due(log, i)
         && (error ==> i + 1 == n) && (timedOut ==> error && Due(log, i) <= at)
       case Filled(failed, count, _) =>
         && i > 0 && looks[i - 1].Clock? && looks[i - 1].at < Due(log, i)
         && (failed || count == 0 ==> i + 1 == n)
  }

  /** The looks of a read so far: the frame budget runs from the clock right after the first bytes. */
  ghost predicate Orderly(log: Log) {
    && log.looks != [] && log.looks[0].Clock?
    && (log.started.Some? ==>
          && 1 < log.started.value < |log.looks| && log.looks[log.started.value].Clock?
          && BroughtBytes(log.looks[log.started.value - 1]))
    && (forall i: nat :: i < |log.looks| ==> LookOk(log, i))
    && (forall i :: 0 <= i < (if log.started.Some? then log.started.value - 1 else |log.looks| - 1) ==>
          !BroughtBytes(log.looks[i]))
  }

  type ReadLog = log: Log | Orderly(log) ghost witness Log([Clock(0)], None, 0, 0)

  function LastLook(log: ReadLog): Look {
    log.looks[|log.looks| - 1]
  }

  /** A look at the clock that did not start a budget found the time due, or the wait did. */
  predicate RanOut(log: ReadLog) {
    var n, last := |log.looks| - 1, LastLook(log);
    || (last.Clock? && n > 0 && log.started != Some(n) && Due(log, n) <= last.at)
    || (last.Waited? && last.timedOut)
  }

  /** The wait or the fill failed. */
  predicate Broke(log: ReadLog) {
    var last := LastLook(log);
    (last.Waited? && last.error && !last.timedOut) || (last.Filled? && last.failed)
  }

  /** The same read, further on. */
  predicate SameRead(log: ReadLog, longer: ReadLog) {
    log.looks[0] == longer.looks[0] && log.idle == longer.idle && log.frame == longer.frame
  }

  /** How a read ended, from its last look. */
  predicate EndsRead(r: ReadResult, log: ReadLog) {
    (r == Failed(TimedOut) <==> RanOut(log)) && (r == Failed(Io) <==> Broke(log))
  }

  /** A read that goes on: its last look did not end it, and the next one is due at `deadline`. */
  predicate ReadingOn(log: ReadLog, deadline: nat, now: nat) {
    && deadline == Due(log, |log.looks|) && LastLook(log).at <= now && !RanOut(log) && !Broke(log)
    && (BroughtBytes(LastLook(log)) ==> log.started.Some?)
    && !(LastLook(log).Filled? && LastLook(log).count == 0)
  }

  /** The next look of a read that goes on. */
  ghost function WithLook(log: ReadLog, look: Look, deadline: nat): (r: ReadLog)
    requires ReadingOn(log, deadline, look.at)
    requires look.Clock? || (LastLook(log).Clock? && LastLook(log).at < deadline)
    requires look.Waited? && look.timedOut ==> look.error && deadline <= look.at
    ensures r == log.(looks := log.looks + [look]) && Due(r, |log.looks|) == deadline
  {
    NextLook(log, look, deadline);
    log.(looks := log.looks + [look])
  }

  lemma NextLook(log: ReadLog, look: Look, deadline: nat)
    requires ReadingOn(log, deadline, look.at)
    requires look.Clock? || (LastLook(log).Clock? && LastLook(log).at < deadline)
    requires look.Waited? && look.timedOut ==> look.error && deadline <= look.at
    ensures Orderly(log.(looks := log.looks + [look]))
  {
    var longer := log.(looks := log.looks + [look]);
    forall i: nat | i < |longer.looks|
      ensures LookOk(longer, i)
    {
      if i < |log.looks| {
        assert LookOk(log, i);
      }
    }
  }

  /** The frame budget starts. */
  ghost function Start(log: ReadLog, at: nat): (r: ReadLog)
    requires log.started.None? && BroughtBytes(LastLook(log)) && LastLook(log).at <= at
    ensures r == log.(looks := log.looks + [Clock(at)], started := Some(|log.looks|))
  {
    Starts(log, at);
    log.(looks := log.looks + [Clock(at)], started := Some(|log.looks|))
  }

  lemma Starts(log: ReadLog, at: nat)
    requires log.started.None? && BroughtBytes(LastLook(log)) && LastLook(log).at <= at
    ensures Orderly(log.(looks := log.looks + [Clock(at)], started := Some(|log.looks|)))
  {
    var longer := log.(looks := log.looks + [Clock(at)], started := Some(|log.looks|));
    assert LookOk(log, |log.looks| - 1);
    forall i: nat | i < |longer.looks|
      ensures LookOk(longer, i)
    {
      if i < |log.looks| {
        assert LookOk(log, i);
      }
    }
  }

  /** A buffered reader over a descriptor: the chunks still to be delivered, the bytes already buffered,
  and the clock. */
  class Input {
    var buffer: seq<Byte>
    var chunks: seq<seq<Byte>>
    var now: nat
    /** The looks of the last read. */
    ghost var log: ReadLog

    ghost function Stream(): seq<Byte>
      reads this`buffer, this`chunks
    {
      buffer + Flatten(chunks)
    }

    constructor (chunks: seq<seq<Byte>>, now: nat)
      ensures Stream() == Flatten(chunks) && this.now == now
    {
      this.buffer, this.chunks, this.now := [], chunks, now;
      log := Log([Clock(0)], None, 0, 0);
    }

    method Tick()
      modifies this`now
      ensures old(now) <= now
    {
      var later: int := *;
      if later > 0 {
        now := now + later;
      }
    }

    /** The clock at the start of a read. */
    method Begin(idle: nat, ghost frame: nat) returns (deadline: nat)
      modifies this`now, this`log
      ensures old(now) <= now && log == Log([Clock(now)], None, idle, frame) && deadline == now + idle
    {
      Tick();
      log := Log([Clock(now)], None, idle, frame);
      deadline := now + idle;
    }

    /** The clock before each wait and each fill. */
    method LookAgain(deadline: nat) returns (late: bool)
      requires ReadingOn(log, deadline, now)
      modifies this`now, this`log
      ensures old(now) <= now && SameRead(old(log), log) && log.started == old(log).started
      ensures LastLook(log) == Clock(now) && (late <==> deadline <= now)
      ensures if late then RanOut(log) && !Broke(log) else ReadingOn(log, deadline, now)
    {
      Tick();
      log := WithLook(log, Clock(now), deadline);
      late := deadline <= now;
    }

    /** `poll` until the descriptor is readable: a time-out is reported only at the deadline. */
    method WaitReady(deadline: nat) returns (error: bool, timedOut: bool)
      requires ReadingOn(log, deadline, now) && LastLook(log) == Clock(now) && now < deadline
      modifies this`now, this`log
      ensures old(now) <= now && SameRead(old(log), log) && log.started == old(log).started
      ensures LastLook(log) == Waited(error, timedOut, now) && (timedOut ==> error && deadline <= now)
      ensures !error ==> ReadingOn(log, deadline, now)
    {
      Tick();
      error := *;
      timedOut := error && deadline <= now;
      log := WithLook(log, Waited(error, timedOut, now), deadline);
    }

    /** Empty only at the end of the stream. */
    method FillBuffer(deadline: nat) returns (failed: bool, available: seq<Byte>)
      requires ReadingOn(log, deadline, now) && LastLook(log) == Clock(now) && now < deadline
      modifies this`buffer, this`chunks, this`log
      ensures Stream() == old(Stream()) && available == buffer
      ensures SameRead(old(log), log) && log.started == old(log).started && Due(log, |log.looks|) == deadline
      ensures LastLook(log) == Filled(failed, |available|, now)
      ensures !failed && available == [] ==> Stream() == []
    {
      failed := *;
      while buffer == [] && chunks != []
        invariant Stream() == old(Stream()) && log == old(log)
        decreases |chunks|
      {
        buffer, chunks := chunks[0], chunks[1..];
      }
      available := buffer;
      log := WithLook(log, Filled(failed, |available|, now), deadline);
    }

    /** The clock right after the first bytes. */
    method StartFrame(frame: nat) returns (deadline: nat)
      requires log.started.None? && BroughtBytes(LastLook(log)) && LastLook(log).at <= now && log.frame == frame
      modifies this`now, this`log
      ensures old(now) <= now && SameRead(old(log), log) && log.started.Some?
      ensures ReadingOn(log, deadline, now)
    {
      Tick();
      log := Start(log, now);
      deadline := now + frame;
    }

    method Consume(count: nat)
      requires count <= |buffer|
      modifies this`buffer
      ensures Stream() == old(Stream())[count..] && buffer == old(buffer)[count..]
    {
      buffer := buffer[count..];
    }

    /** However the stream is cut into chunks, a successful read returns the reference frame and leaves
    exactly the bytes after it; a failed read has consumed no frame end. Every fill was tried within the idle budget
    of the call, or, once bytes had come, within the frame budget of the first of them (`log` is in order), and a
    time-out is reported exactly when a look found that budget used up. */
    method ReadFrame(limit: nat, idle: nat, frame: nat) returns (r: ReadResult)
      modifies this
      ensures r.Frame? ==> r.bytes == FrameOf(old(Stream()), limit)
      ensures r.Frame? ==> |r.bytes| <= |old(Stream())| && Stream() == old(Stream())[|r.bytes|..]
      ensures r.Failed? ==> exists k: nat :: ReadNoFrame(old(Stream()), Stream(), k, limit)
      ensures old(now) <= log.looks[0].at && LastLook(log).at <= now && log.idle == idle && log.frame == frame
      ensures EndsRead(r, log)
    {
      ghost var stream := Stream();
      var deadline := Begin(idle, frame);
      var bytes: seq<Byte> := [];
      while true
        invariant |bytes| <= limit && stream == bytes + Stream()
        invariant forall i :: 0 <= i < |bytes| ==> bytes[i] != NEWLINE
        invariant old(now) <= log.looks[0].at && log.idle == idle && log.frame == frame
        invariant ReadingOn(log, deadline, now) && (bytes == [] <==> log.started.None?)
        decreases |Stream()|
      {
        NoFrameYet(stream, bytes, Stream(), limit);
        var failure;
        failure, deadline := NextBytes(deadline, frame, bytes == []);
        if failure.Some? {
          return Failed(failure.value);
        }
        if buffer == [] {
          FrameUnique(stream, limit, |bytes|);
          return Frame(bytes);
        }
        var done;
        bytes, done := TakeLinePart(bytes, limit);
        if done {
          return Frame(bytes);
        }
      }
    }

    /** The next bytes, and with the first of them the frame budget. */
    method NextBytes(deadline: nat, frame: nat, first: bool) returns (failure: Option<ReadError>, due: nat)
      requires ReadingOn(log, deadline, now) && (first <==> log.started.None?) && log.frame == frame
      modifies this
      ensures Stream() == old(Stream()) && SameRead(old(log), log) && LastLook(log).at <= now
      ensures failure.Some? ==> EndsRead(Failed(failure.value), log)
      ensures failure.None? && buffer == [] ==> Stream() == [] && !RanOut(log) && !Broke(log)
      ensures failure.None? && buffer != [] ==> ReadingOn(log, due, now) && log.started.Some?
    {
      due := deadline;
      failure := AwaitBytes(deadline);
      if failure.None? && buffer != [] && first {
        due := StartFrame(frame);
      }
    }

    /** Bytes in the buffer, or the end of the stream, or a failure: nothing is consumed. */
    method AwaitBytes(deadline: nat) returns (failure: Option<ReadError>)
      requires ReadingOn(log, deadline, now)
      modifies this
      ensures Stream() == old(Stream()) && SameRead(old(log), log) && LastLook(log).at <= now
      ensures log.started == old(log).started
      ensures failure.Some? ==> EndsRead(Failed(failure.value), log)
      ensures failure.None? ==>
                && LastLook(log) == Filled(false, |buffer|, now) && Due(log, |log.looks|) == deadline
                && (buffer == [] ==> Stream() == [])
    {
      var late := LookAgain(deadline);
      if late {
        return Some(TimedOut);
      }
      if buffer == [] {
        var error, timedOut := WaitReady(deadline);
        if error {
          return Some(if timedOut then TimedOut else Io);
        }
      }
      late := LookAgain(deadline);
      if late {
        return Some(TimedOut);
      }
      var failed, available := FillBuffer(deadline);
      failure := if failed then Some(Io) else None;
    }

    /** One round of the copy: up to and including a newline, never past limit + 1 bytes in all. */
    method TakeLinePart(bytes: seq<Byte>, limit: nat) returns (longer: seq<Byte>, done: bool)
      requires buffer != [] && |bytes| <= limit
      requires forall i :: 0 <= i < |bytes| ==> bytes[i] != NEWLINE
      modifies this`buffer
      ensures longer + Stream() == bytes + old(Stream()) && |Stream()| < |old(Stream())| && longer != []
      ensures done ==> longer == FrameOf(bytes + old(Stream()), limit)
      ensures !done ==> |longer| <= limit && forall i :: 0 <= i < |longer| ==> longer[i] != NEWLINE
    {
      ghost var rest := Flatten(chunks);
      var line := NewlinePrefix(buffer);
      var room := limit + 1 - |bytes|;
      var count := if line <= room then line else room;
      var part := buffer[..count];
      longer := bytes + part;
      done := part[|part| - 1] == NEWLINE || |longer| > limit;
      CutAt(bytes, buffer, rest, count);
      PartTaken(bytes, part, buffer[count..] + rest, limit);
      Consume(count);
    }
  }

  /** Moving a part that holds no newline except perhaps at its end, and stays within limit + 1. */
  lemma PartTaken(bytes: seq<Byte>, part: seq<Byte>, rest: seq<Byte>, limit: nat)
    requires part != [] && |bytes| + |part| <= limit + 1
    requires forall i :: 0 <= i < |bytes| ==> bytes[i] != NEWLINE
    requires forall i :: 0 <= i < |part| - 1 ==> part[i] != NEWLINE
    ensures part[|part| - 1] == NEWLINE || |bytes| + |part| > limit ==>
              FrameOf(bytes + (part + rest), limit) == bytes + part
    ensures part[|part| - 1] != NEWLINE ==> forall i :: 0 <= i < |bytes + part| ==> (bytes + part)[i] != NEWLINE
  {
    var longer := bytes + part;
    var all := bytes + (part + rest);
    assert all == longer + rest && all[..|longer|] == longer;
    if part[|part| - 1] == NEWLINE || |longer| > limit {
      FrameUnique(all, limit, |longer|);
    }
  }

  lemma CutAt(bytes: seq<Byte>, buffer: seq<Byte>, rest: seq<Byte>, count: nat)
    requires count <= |buffer|
    ensures buffer + rest == buffer[..count] + (buffer[count..] + rest)
    ensures (bytes + buffer[..count]) + (buffer[count..] + rest) == bytes + (buffer + rest)
  {
    assert buffer == buffer[..count] + buffer[count..];
  }

  /** Reading `k` bytes of a stream without reaching the end of a frame. */
  ghost predicate ReadNoFrame(before: seq<Byte>, after: seq<Byte>, k: nat, limit: nat) {
    && k <= limit && k <= |before| && after == before[k..]
    && forall i :: 0 <= i < k ==> before[i] != NEWLINE
  }

  lemma NoFrameYet(before: seq<Byte>, bytes: seq<Byte>, after: seq<Byte>, limit: nat)
    requires before == bytes + after && |bytes| <= limit
    requires forall i :: 0 <= i < |bytes| ==> bytes[i] != NEWLINE
    ensures ReadNoFrame(before, after, |bytes|, limit)
  {
  }

  /** One past the first newline, or the whole length. */
  method NewlinePrefix(available: seq<Byte>) returns (count: nat)
    requires available != []
    ensures 0 < count <= |available|
    ensures forall i :: 0 <= i < count - 1 ==> available[i] != NEWLINE
    ensures count == |available| || available[count - 1] == NEWLINE
  {
    count := 1;
    while count < |available| && available[count - 1] != NEWLINE
      invariant 0 < count <= |available|
      invariant forall i :: 0 <= i < count - 1 ==> available[i] != NEWLINE
    {
      count := count + 1;
    }
  }

  // ---------------------------------------------------------------- the request loop

  /** What the loop tests on a frame is what makes it a request. */
  lemma RequestTest(s: seq<Byte>, limit: nat)
    ensures var f := FrameOf(s, limit);
            IsRequest(f, limit) <==> 0 < |f| <= limit && f[|f| - 1] == NEWLINE
    ensures |FrameOf(s, limit)| <= |s|
  {
    FrameShape(s, limit);
    var f := FrameOf(s, limit);
    assert forall i :: 0 <= i < |f| ==> f[i] == s[i];
  }

  lemma RequestsUnfold(s: seq<Byte>, limit: nat)
    ensures |FrameOf(s, limit)| <= |s|
    ensures Requests(s, limit) == if IsRequest(FrameOf(s, limit), limit)
                                  then [FrameOf(s, limit)] + Requests(s[|FrameOf(s, limit)|..], limit) else []
  {
    FrameShape(s, limit);
  }

  /** One more frame: a usable one is the next request, anything else ends the list. */
  lemma ServeStep(all: seq<seq<Byte>>, served: seq<seq<Byte>>, s: seq<Byte>, limit: nat)
    requires all == served + Requests(s, limit)
    ensures |FrameOf(s, limit)| <= |s|
    ensures if IsRequest(FrameOf(s, limit), limit)
            then all == (served + [FrameOf(s, limit)]) + Requests(s[|FrameOf(s, limit)|..], limit)
            else all == served
  {
    RequestsUnfold(s, limit);
  }

  datatype ServeOutcome = EndOfInput | InputFailed(error: ReadError) | OutputFailed

  /** The host's side of one stream: what was executed and which replies were fully flushed. */
  class Server {
    var dispatched: seq<seq<Byte>>
    var replies: nat
    /** How many replies were begun. */
    ghost var attempts: nat

    constructor ()
      ensures dispatched == [] && replies == attempts == 0
    {
      dispatched, replies, attempts := [], 0, 0;
    }

    method Execute(request: seq<Byte>)
      modifies this`dispatched
      ensures dispatched == old(dispatched) + [request]
    {
      dispatched := dispatched + [request];
    }

    method WriteReply() returns (failed: bool)
      modifies this`replies, this`attempts
      ensures replies == old(replies) + (if failed then 0 else 1) && attempts == old(attempts) + 1
    {
      attempts := attempts + 1;
      failed := *;
      if !failed {
        replies := replies + 1;
      }
    }

    /** One frame that is not the end of input: a usable one is executed, and a reply is written either way. */
    method Respond(bytes: seq<Byte>, limit: nat) returns (failed: bool, usable: bool)
      requires bytes != []
      modifies this
      ensures usable <==> |bytes| <= limit && bytes[|bytes| - 1] == NEWLINE
      ensures dispatched == old(dispatched) + (if usable then [bytes] else [])
      ensures replies == old(replies) + (if failed then 0 else 1) && attempts == old(attempts) + 1
    {
      var oversized := |bytes| > limit;
      var incomplete := bytes[|bytes| - 1] != NEWLINE;
      usable := !oversized && !incomplete;
      if usable {
        Execute(bytes);
      }
      failed := WriteReply();
    }

    /** One frame: read, and answered unless the input ended or failed. `all` are the requests of the stream. */
    method ServeOne(input: Input, limit: nat, idle: nat, frame: nat, ghost all: seq<seq<Byte>>)
      returns (end: Option<ServeOutcome>)
      requires all == dispatched + Requests(input.Stream(), limit) && |dispatched| == replies == attempts
      modifies this, input
      ensures old(dispatched) <= dispatched <= all && |dispatched| <= |old(dispatched)| + 1
      ensures end.None? ==>
                && all == dispatched + Requests(input.Stream(), limit) && |input.Stream()| < |old(input.Stream())|
                && |dispatched| == |old(dispatched)| + 1 == replies == attempts
      ensures end.Some? ==>
                match end.value
                case EndOfInput =>
                  dispatched == all == old(dispatched) && |dispatched| <= replies == attempts <= |dispatched| + 1
                case InputFailed(error) =>
                  && dispatched == old(dispatched) && |dispatched| == replies == attempts
                  && EndsRead(Failed(error), input.log)
                case OutputFailed => replies <= |dispatched| <= replies + 1 == attempts
    {
      ghost var before := input.Stream();
      var read := input.ReadFrame(limit, idle, frame);
      if read.Failed? {
        return Some(InputFailed(read.error));
      }
      ServeStep(all, dispatched, before, limit);
      RequestTest(before, limit);
      if read.bytes == [] {
        return Some(EndOfInput);
      }
      end := Answer(read.bytes, limit, all, Requests(input.Stream(), limit));
    }

    /** A frame that was read: `rest` are the requests after it. */
    method Answer(bytes: seq<Byte>, limit: nat, ghost all: seq<seq<Byte>>, ghost rest: seq<seq<Byte>>)
      returns (end: Option<ServeOutcome>)
      requires bytes != [] && |dispatched| == replies == attempts
      requires if |bytes| <= limit && bytes[|bytes| - 1] == NEWLINE then all == (dispatched + [bytes]) + rest
               else all == dispatched
      modifies this
      ensures old(dispatched) <= dispatched <= all && |dispatched| <= |old(dispatched)| + 1
      ensures end.None? ==> all == dispatched + rest && |dispatched| == |old(dispatched)| + 1 == replies == attempts
      ensures end.Some? ==>
                match end.value
                case EndOfInput =>
                  dispatched == all == old(dispatched) && |dispatched| <= replies == attempts <= |dispatched| + 1
                case InputFailed(_) => false
                case OutputFailed => replies <= |dispatched| <= replies + 1 == attempts
    {
      var failed, usable := Respond(bytes, limit);
      if failed {
        return Some(OutputFailed);
      }
      return if usable then None else Some(EndOfInput);
    }

    /** With `single`, the second read yields end of input, as on a socket connection. */
    method ServeFrames(input: Input, limit: nat, single: bool, idle: nat, frame: nat) returns (outcome: ServeOutcome)
      requires dispatched == [] && replies == attempts == 0
      modifies this, input
      ensures dispatched <= Requests(old(input.Stream()), limit)
      ensures outcome.EndOfInput? && !single ==> dispatched == Requests(old(input.Stream()), limit)
      ensures outcome.EndOfInput? && single ==> dispatched == FirstOnly(Requests(old(input.Stream()), limit))
      ensures single ==> |dispatched| <= 1
      ensures outcome.EndOfInput? ==> |dispatched| <= replies == attempts <= |dispatched| + 1
      ensures outcome.InputFailed? ==>
                |dispatched| == replies == attempts && EndsRead(Failed(outcome.error), input.log)
      ensures outcome.OutputFailed? ==> replies <= |dispatched| <= replies + 1 == attempts
    {
      ghost var all := Requests(input.Stream(), limit);
      var consumed := false;
      while true
        invariant |dispatched| == replies == attempts
        invariant single ==> (consumed <==> |dispatched| == 1) && |dispatched| <= 1
        invariant all == dispatched + Requests(input.Stream(), limit)
        decreases |input.Stream()|
      {
        if single && consumed {
          return EndOfInput;
        }
        consumed := single;
        var end := ServeOne(input, limit, idle, frame, all);
        if end.Some? {
          return end.value;
        }
      }
    }
  }

  function FirstOnly(requests: seq<seq<Byte>>): seq<seq<Byte>> {
    if |requests| <= 1 then requests else requests[..1]
  }
}
