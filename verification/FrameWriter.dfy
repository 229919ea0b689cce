/** The bounded writer under the command host's requests and replies: one absolute deadline per frame, set by
its first attempt and cleared only by a successful flush.

The descriptor is an oracle that may accept any part of a write, block, be interrupted or fail; every call
takes some time. `pieces` records what it accepted and when the writer last looked at the clock before that. */
module FrameWriter {
  import opened Common

  datatype WriteError = TimedOut | WriteZero | Io

  datatype Result<+T> = Ok(value: T) | Err(error: WriteError)

  datatype Piece = Piece(bytes: seq<Byte>, checkedAt: nat)

  datatype Operation = WriteBytes(bytes: seq<Byte>) | FlushOutput

  datatype Attempted = Done(count: nat) | WouldBlock | Interrupted | Failed

  /** What the descriptor answered, and when the clock had last been looked at. */
  datatype Answer = Operated(r: Attempted, checkedAt: nat) | Polled(ready: Readiness)

  datatype Readiness = Ready | Late | Broken

  /** An answer after which the writer tries again. */
  predicate IsRetry(answer: Answer) {
    match answer
    case Operated(r, _) => r.WouldBlock? || r.Interrupted?
    case Polled(ready) => ready.Ready?
  }

  predicate IsBlocked(answer: Answer) {
    answer.Operated? && answer.r.WouldBlock?
  }

  predicate IsFault(answer: Answer) {
    match answer
    case Operated(r, _) => r.Failed?
    case Polled(ready) => ready.Broken?
  }

  /** One answer of an operation: the call was made before the deadline; a poll follows exactly a blocked call; and
  whatever is not the last answer led to another try. */
  ghost predicate TryOk(answers: seq<Answer>, from: nat, i: nat, deadline: nat)
    requires from <= i < |answers|
  {
    && (answers[i].Operated? ==> answers[i].checkedAt < deadline)
    && (i + 1 < |answers| ==> IsRetry(answers[i]))
    && (answers[i].Polled? <==> i > from && IsBlocked(answers[i - 1]))
  }

  ghost predicate Tries(answers: seq<Answer>, from: nat, deadline: nat) {
    from <= |answers| && forall i: nat :: from <= i < |answers| ==> TryOk(answers, from, i, deadline)
  }

  lemma OneMoreTry(answers: seq<Answer>, answer: Answer, from: nat, deadline: nat)
    requires Tries(answers, from, deadline)
    requires answer.Operated? ==> answer.checkedAt < deadline
    requires from < |answers| ==> IsRetry(answers[|answers| - 1])
    requires answer.Polled? <==>
               from < |answers| && IsBlocked(answers[|answers| - 1])
    ensures Tries(answers + [answer], from, deadline)
  {
    var longer := answers + [answer];
    forall i: nat | from <= i < |longer|
      ensures TryOk(longer, from, i, deadline)
    {
      if i < |answers| {
        assert TryOk(answers, from, i, deadline);
      }
    }
  }

  /** The result of one operation, from its last answer. */
  predicate FollowsFrom(r: Result<nat>, answers: seq<Answer>, from: nat) {
    && (r == Err(Io) <==> from < |answers| && IsFault(answers[|answers| - 1]))
    && (from < |answers| && answers[|answers| - 1] == Polled(Late) ==> r == Err(TimedOut))
    && (r.Ok? <==> from < |answers| && answers[|answers| - 1].Operated? && answers[|answers| - 1].r.Done?)
    && (r.Ok? ==> answers[|answers| - 1].r.count == r.value)
    && r != Err(WriteZero)
  }

  /** The last answer since `from` tells why a frame was not written: Io exactly for a failed call or poll, nothing
  written exactly for a call that took no byte. */
  predicate FailsFor(r: Result<nat>, answers: seq<Answer>, from: nat) {
    && (r == Err(Io) <==> from < |answers| && IsFault(answers[|answers| - 1]))
    && (r == Err(WriteZero) ==>
          from < |answers| && answers[|answers| - 1].Operated? && answers[|answers| - 1].r == Done(0))
    && (from < |answers| && answers[|answers| - 1] == Polled(Late) ==> r == Err(TimedOut))
  }

  function Sent(pieces: seq<Piece>): seq<Byte> {
    if pieces == [] then [] else Sent(pieces[..|pieces| - 1]) + pieces[|pieces| - 1].bytes
  }

  lemma SentAppend(pieces: seq<Piece>, piece: Piece)
    ensures Sent(pieces + [piece]) == Sent(pieces) + piece.bytes
  {
    assert (pieces + [piece])[..|pieces|] == pieces;
  }

  /** All pieces from `from` on were written after `began` and before its deadline was seen to have passed. */
  ghost predicate InTime(pieces: seq<Piece>, from: nat, began: nat, timeout: nat) {
    forall i :: from <= i < |pieces| ==> began <= pieces[i].checkedAt < began + timeout
  }

  lemma OneMore(
    pieces: seq<Piece>, piece: Piece, from: nat, rest: seq<Byte>, frame: seq<Byte>, count: nat, began: nat,
    timeout: nat)
    requires from <= |pieces| && count <= |rest| && piece.bytes == rest[..count]
    requires Sent(pieces[from..]) + rest == frame && InTime(pieces, from, began, timeout)
    requires began <= piece.checkedAt < began + timeout
    ensures Sent((pieces + [piece])[from..]) + rest[count..] == frame
    ensures InTime(pieces + [piece], from, began, timeout)
  {
    assert (pieces + [piece])[from..] == pieces[from..] + [piece];
    SentAppend(pieces[from..], piece);
    assert rest == rest[..count] + rest[count..];
  }

  class BoundedWriter {
    const timeout: nat
    var deadline: Option<nat>
    var now: nat
    var pieces: seq<Piece>
    ghost var answers: seq<Answer>

    constructor (timeout: nat, now: nat)
      ensures this.timeout == timeout && this.now == now && deadline.None? && pieces == []
      ensures answers == []
    {
      this.timeout, this.now, deadline, pieces, answers := timeout, now, None, [], [];
    }

    method ReadClock() returns (time: nat)
      modifies this`now
      ensures old(now) <= now == time
    {
      var later: int := *;
      if later > 0 {
        now := now + later;
      }
      time := now;
    }

    /** One system call on the descriptor. */
    method Operate(operation: Operation, checkedAt: nat) returns (r: Attempted)
      modifies this`now, this`pieces, this`answers
      ensures old(now) < now && answers == old(answers) + [Operated(r, checkedAt)]
      ensures r.Done? && operation.WriteBytes? ==>
                r.count <= |operation.bytes| && pieces == old(pieces) + [Piece(operation.bytes[..r.count], checkedAt)]
      ensures !(r.Done? && operation.WriteBytes?) ==> pieces == old(pieces)
    {
      r := *;
      match r {
        case Done(count) =>
          if operation.WriteBytes? {
            if count > |operation.bytes| {
              r := Failed;
            } else {
              pieces := pieces + [Piece(operation.bytes[..count], checkedAt)];
            }
          }
        case _ =>
      }
      answers := answers + [Operated(r, checkedAt)];
      now := now + 1;
      var _ := ReadClock();
    }

    /** Waiting until the descriptor can be written to. */
    method Poll() returns (ready: Readiness)
      requires deadline.Some?
      modifies this`answers, this`now
      ensures old(now) <= now && answers == old(answers) + [Polled(ready)]
      ensures ready.Late? ==> deadline.value <= now
    {
      ready := *;
      var time := ReadClock();
      if ready.Late? && time < deadline.value {
        now := deadline.value;
      }
      answers := answers + [Polled(ready)];
    }

    /** The retry loop: blocked and interrupted calls are tried again, until the deadline of the frame. A failure is
    reported exactly for a failed call or poll, a result exactly for a call that gave it. */
    method Attempt(operation: Operation) returns (r: Result<nat>, ghost began: nat)
      requires deadline.Some? ==> timeout <= deadline.value <= now + timeout
      modifies this`deadline, this`now, this`pieces, this`answers
      ensures deadline == Some(began + timeout) && old(now) <= now
      ensures if old(deadline).Some? then deadline == old(deadline) else old(now) <= began
      ensures began <= now
      ensures r.Ok? && operation.WriteBytes? ==>
                && r.value <= |operation.bytes| && |pieces| == |old(pieces)| + 1
                && pieces == old(pieces) + [Piece(operation.bytes[..r.value], pieces[|old(pieces)|].checkedAt)]
                && began <= pieces[|old(pieces)|].checkedAt < began + timeout
      ensures r.Err? || operation.FlushOutput? ==> pieces == old(pieces)
      ensures r == Err(TimedOut) ==> began + timeout <= now
      ensures old(answers) <= answers && Tries(answers, |old(answers)|, began + timeout)
      ensures FollowsFrom(r, answers, |old(answers)|)
    {
      if deadline.None? {
        var time := ReadClock();
        deadline := Some(time + timeout);
      }
      began := deadline.value - timeout;
      while true
        invariant deadline == Some(began + timeout) && old(now) <= now && pieces == old(pieces)
        invariant began <= now
        invariant old(answers) <= answers && Tries(answers, |old(answers)|, began + timeout)
        invariant |answers| > |old(answers)| ==>
                    IsRetry(answers[|answers| - 1]) && !IsBlocked(answers[|answers| - 1])
        decreases if now < deadline.value then deadline.value - now + 1 else 0
      {
        var time := ReadClock();
        if deadline.value <= time {
          return Err(TimedOut), began;
        }
        ghost var before := answers;
        var attempted := Operate(operation, time);
        OneMoreTry(before, Operated(attempted, time), |old(answers)|, began + timeout);
        match attempted {
          case Done(count) => return Ok(count), began;
          case Failed => return Err(Io), began;
          case Interrupted =>
          case WouldBlock =>
            before := answers;
            var ready := Poll();
            OneMoreTry(before, Polled(ready), |old(answers)|, began + timeout);
            match ready {
              case Late => return Err(TimedOut), began;
              case Broken => return Err(Io), began;
              case Ready =>
            }
        }
      }
    }

    method Flush() returns (r: Result<nat>, ghost began: nat)
      requires deadline.Some? ==> timeout <= deadline.value <= now + timeout
      modifies this`deadline, this`now, this`pieces, this`answers
      ensures pieces == old(pieces) && old(now) <= now
      ensures old(deadline).Some? ==> old(deadline) == Some(began + timeout)
      ensures old(deadline).None? ==> old(now) <= began
      ensures r.Ok? ==> deadline.None?
      ensures r.Err? ==> deadline == Some(began + timeout) && (r.error.TimedOut? ==> began + timeout <= now)
      ensures old(answers) <= answers && FailsFor(r, answers, |old(answers)|) && r != Err(WriteZero)
    {
      r, began := Attempt(FlushOutput);
      if r.Ok? {
        deadline := None;
      }
    }

    /** Writing everything, in as many calls as it takes. */
    method WriteAll(frame: seq<Byte>) returns (r: Result<nat>, ghost began: nat)
      requires deadline.None?
      modifies this`deadline, this`now, this`pieces, this`answers
      ensures old(pieces) <= pieces && old(now) <= began <= now
      ensures InTime(pieces, |old(pieces)|, began, timeout)
      ensures Sent(pieces[|old(pieces)|..]) <= frame
      ensures r.Ok? ==> Sent(pieces[|old(pieces)|..]) == frame
      ensures if deadline.Some? then deadline == Some(began + timeout) else pieces == old(pieces)
      ensures r.Err? ==> deadline.Some? && (r.error.TimedOut? ==> began + timeout <= now)
      ensures old(answers) <= answers && FailsFor(r, answers, |old(answers)|)
    {
      ghost var from := |pieces|;
      var rest := frame;
      began := now;
      while rest != []
        invariant old(pieces) <= pieces && old(now) <= began <= now
        invariant if deadline.Some? then deadline == Some(began + timeout) else pieces == old(pieces)
        invariant InTime(pieces, from, began, timeout)
        invariant Sent(pieces[from..]) + rest == frame
        invariant old(answers) <= answers
        invariant |answers| > |old(answers)| ==>
                    answers[|answers| - 1].Operated? && answers[|answers| - 1].r.Done?
        decreases |rest|
      {
        ghost var before := pieces;
        var written;
        written, began := Attempt(WriteBytes(rest));
        if written.Err? {
          return written, began;
        }
        OneMore(before, pieces[|before|], from, rest, frame, written.value, began, timeout);
        rest := rest[written.value..];
        if written.value == 0 {
          return Err(WriteZero), began;
        }
      }
      r := Ok(|frame|);
    }

    /** Writing a frame and flushing it. Whatever the descriptor does, it receives a prefix of the frame, all of
    it on success, and every piece within one time-out of the first attempt. A failed frame keeps its deadline,
    so what is tried after it cannot outlast it; only a flushed frame lets the next one start afresh. */
    method WriteFrame(frame: seq<Byte>) returns (r: Result<nat>, ghost began: nat)
      requires deadline.None?
      modifies this`deadline, this`now, this`pieces, this`answers
      ensures old(pieces) <= pieces && old(now) <= began && old(now) <= now
      ensures InTime(pieces, |old(pieces)|, began, timeout)
      ensures Sent(pieces[|old(pieces)|..]) <= frame
      ensures r.Ok? ==> Sent(pieces[|old(pieces)|..]) == frame && deadline.None?
      ensures r.Err? ==> deadline == Some(began + timeout)
      ensures r == Err(TimedOut) ==> began + timeout <= now
      ensures old(answers) <= answers && FailsFor(r, answers, |old(answers)|)
    {
      r, began := WriteAll(frame);
      if r.Ok? {
        ghost var flushFrom;
        r, flushFrom := Flush();
        if r.Err? {
          began := flushFrom;
        }
      }
    }
  }
}
