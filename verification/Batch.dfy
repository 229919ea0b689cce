/** The batch executor: one loop, five exits, carried event baselines and a byte budget.

Commands, results and entries are what the loop looks at; a serialized entry is its bytes. The clock,
the session store, the baseline capture and the dispatch of one command are oracles. */
module Batch {
  import opened Common
  import opened BoundedJson

  const MAX_OUTPUT_BYTES: nat := 4 * 1024 * 1024
  const METADATA_RESERVE: nat := 8 * 1024

  datatype Disposition = Unknown | NotDelivered | Uncertain | DeliveredUnverified | DeliveredVerified

  /** `waitsForEvent`: the entry needs a baseline captured before the entry in front of it runs. */
  datatype Command = Command(waitsForEvent: bool)

  datatype Reason = Deadline | SessionEnded | BaselineFailed

  datatype Execution = NotStarted(reason: Reason) | Completed(ok: bool, omitted: bool)

  datatype Entry = Entry(index: nat, execution: Execution, disposition: Option<Disposition>, bytes: seq<Byte>)

  datatype Stop =
    | DeadlineAt(index: nat)
    | DeadlineAfter(index: nat)
    | StopOnError(index: nat)
    | BaselineFailedAt(index: nat)
    | OutputLimit(index: nat)

  type Baseline = nat

  datatype CommandResult = CommandResult(ok: bool, disposition: Option<Disposition>, bytes: seq<Byte>)

  /** What the loop asked and what it was told: the clock, the session of an entry, a baseline, a command. */
  datatype Event =
    | Read(time: nat)
    | Looked(index: nat, ended: bool)
    | Captured(during: nat, baseline: Option<Baseline>)
    | Dispatched(index: nat, handed: Option<Baseline>, result: CommandResult)

  datatype Outcome =
    | Body(results: seq<Entry>, completed: nat, stop: Option<Stop>)
    | TooLarge(completed: nat, disposition: Disposition)

  // ---------------------------------------------------------------- bytes

  /** The running total: each entry and one separator. */
  function Used(entries: seq<Entry>): nat {
    if entries == [] then 0 else Used(entries[..|entries| - 1]) + |entries[|entries| - 1].bytes| + 1
  }

  /** The serialized array, without its opening bracket: each entry followed by a comma or the closing bracket. */
  function ArrayTail(entries: seq<Entry>): seq<Byte> {
    if entries == [] then []
    else entries[0].bytes + (if |entries| == 1 then [93] else [44]) + ArrayTail(entries[1..])
  }

  function ArrayBytes(entries: seq<Entry>): seq<Byte> {
    [91] + (if entries == [] then [93] else ArrayTail(entries))
  }

  lemma {:induction false} UsedFirst(entries: seq<Entry>)
    requires entries != []
    ensures Used(entries) == |entries[0].bytes| + 1 + Used(entries[1..])
    decreases |entries|
  {
    if |entries| == 1 {
      assert entries[..0] == [];
    } else {
      var front := entries[..|entries| - 1];
      UsedFirst(front);
      assert entries[1..][..|entries| - 2] == front[1..];
    }
  }

  lemma {:induction false} TailLength(entries: seq<Entry>)
    ensures |ArrayTail(entries)| == Used(entries)
  {
    if entries != [] {
      UsedFirst(entries);
      TailLength(entries[1..]);
    }
  }

  /** The running total is one less than the serialized length of a non-empty result array. */
  lemma TotalIsArrayLengthLessOne(entries: seq<Entry>)
    requires entries != []
    ensures |ArrayBytes(entries)| == Used(entries) + 1
  {
    TailLength(entries);
  }

  lemma UsedAppend(entries: seq<Entry>, entry: Entry)
    ensures Used(entries + [entry]) == Used(entries) + |entry.bytes| + 1
  {
    assert (entries + [entry])[..|entries|] == entries;
  }

  function Available(used: nat): nat {
    if used <= MAX_OUTPUT_BYTES - METADATA_RESERVE then MAX_OUTPUT_BYTES - METADATA_RESERVE - used else 0
  }

  predicate IsWhole(entry: Entry) {
    entry.execution.Completed? && !entry.execution.omitted
  }

  /** Every entry kept whole fitted into what was left before it. */
  ghost predicate WholeEntriesFit(results: seq<Entry>) {
    forall i :: 0 <= i < |results| && IsWhole(results[i]) ==> |results[i].bytes| <= Available(Used(results[..i]))
  }

  /** A non-empty entry is kept whole only if the array stays within the limit minus the reserve, give or
  take one bracket: the total after it, separator included, is at most one over. */
  lemma WholeEntryBound(results: seq<Entry>, i: nat)
    requires WholeEntriesFit(results) && i < |results| && IsWhole(results[i]) && results[i].bytes != []
    ensures Used(results[..i + 1]) <= MAX_OUTPUT_BYTES - METADATA_RESERVE + 1
  {
    assert results[..i + 1][..i] == results[..i];
  }

  /** That one byte is real: an entry that exactly fills what is left is kept, and the total with its
  separator is over the limit minus the reserve. */
  lemma TotalCanExceedByOne(entry: Entry)
    requires IsWhole(entry) && |entry.bytes| == MAX_OUTPUT_BYTES - METADATA_RESERVE
    ensures WholeEntriesFit([entry]) && Used([entry]) == MAX_OUTPUT_BYTES - METADATA_RESERVE + 1
  {
    assert [entry][..0] == [];
    UsedAppend([], entry);
  }

  /** Exactly when the total stays within it: the entry leaves room for its separator. */
  lemma TotalWithinReserveIff(results: seq<Entry>, entry: Entry)
    requires |entry.bytes| <= Available(Used(results)) && entry.bytes != []
    ensures Used(results + [entry]) <= MAX_OUTPUT_BYTES - METADATA_RESERVE <==> |entry.bytes| < Available(Used(results))
  {
    UsedAppend(results, entry);
  }

  // ---------------------------------------------------------------- rounds

  /** What happened to one entry. `top` is the clock before it, `after` the clock after its command. */
  datatype Round =
    | Late(top: nat)
    | Ended(top: nat)
    | Blocked(top: nat)
    | Ran(top: nat, captured: Option<Baseline>, handed: Option<Baseline>, result: CommandResult, whole: bool,
          after: Option<nat>)

  function EventsOf(round: Round, i: nat): seq<Event> {
    match round
    case Late(top) => [Read(top)]
    case Ended(top) => [Read(top), Looked(i, true)]
    case Blocked(top) => [Read(top), Looked(i, false), Captured(i, None)]
    case Ran(top, captured, handed, result, _, after) =>
      var ran := Dispatched(i, handed, result);
      if captured.None? then
        if after.None? then [Read(top), Looked(i, false), ran]
        else [Read(top), Looked(i, false), ran, Read(after.value)]
      else if after.None? then [Read(top), Looked(i, false), Captured(i, captured), ran]
      else [Read(top), Looked(i, false), Captured(i, captured), ran, Read(after.value)]
  }

  /** The events of the first `n` rounds. */
  function EventsUpTo(rounds: seq<Round>, n: nat): seq<Event>
    requires n <= |rounds|
  {
    if n == 0 then [] else EventsUpTo(rounds, n - 1) + EventsOf(rounds[n - 1], n - 1)
  }

  /** The baseline that the rounds before `n` leave for the entry at `n`. */
  function Carried(rounds: seq<Round>, n: nat): Option<Baseline>
    requires n <= |rounds|
  {
    if n > 0 && rounds[n - 1].Ran? then rounds[n - 1].captured else None
  }

  function CarriedBy(round: Round): Option<Baseline> {
    if round.Ran? then round.captured else None
  }

  predicate NextWaits(commands: seq<Command>, i: nat) {
    i + 1 < |commands| && commands[i + 1].waitsForEvent
  }

  /** When each kind of round is the right one. Nothing is dispatched unless the clock was read before the deadline
  in the same round; a baseline is captured exactly if the next entry waits for an event, and handed on exactly from
  the round before; the clock is read again unless the size or an error has ended the batch. */
  ghost predicate RoundOk(
    commands: seq<Command>, round: Round, i: nat, carried: Option<Baseline>, stopOnError: bool, deadline: nat)
  {
    match round
    case Late(top) => deadline <= top
    case Ended(top) => top < deadline
    case Blocked(top) => top < deadline && NextWaits(commands, i)
    case Ran(top, captured, handed, result, whole, after) =>
      && top < deadline && handed == carried && (captured.Some? <==> NextWaits(commands, i))
      && (after.None? <==> !whole || (!result.ok && stopOnError))
  }

  /** How a round ends the batch, if it does. */
  ghost function StopOf(round: Round, i: nat, total: nat, stopOnError: bool, deadline: nat): Option<Stop> {
    match round
    case Late(_) => Some(DeadlineAt(i))
    case Ended(_) => if stopOnError then Some(StopOnError(i)) else None
    case Blocked(_) => Some(BaselineFailedAt(i))
    case Ran(_, _, _, _, whole, None) => Some(if whole then StopOnError(i) else OutputLimit(i))
    case Ran(_, _, _, _, _, Some(after)) => if deadline <= after && i + 1 < total then Some(DeadlineAfter(i)) else None
  }

  /** The entry that reports a round, given the bytes used by the entries before it. */
  ghost predicate Reports(entry: Entry, round: Round, i: nat, used: nat) {
    && entry.index == i
    && match round
       case Late(_) => entry.execution == NotStarted(Deadline) && entry.disposition == Some(NotDelivered)
       case Ended(_) => entry.execution == NotStarted(SessionEnded) && entry.disposition == Some(NotDelivered)
       case Blocked(_) => entry.execution == NotStarted(BaselineFailed) && entry.disposition == Some(NotDelivered)
       case Ran(_, _, _, result, whole, _) =>
         && (whole <==> |result.bytes| <= Available(used))
         && entry.execution == Completed(result.ok && whole, !whole)
         && (whole ==> entry.bytes == result.bytes && entry.disposition == result.disposition)
         && (!whole ==> entry.disposition
                        == Some(if result.disposition.Some? then result.disposition.value else Uncertain))
  }

  /** The loop's variables. */
  datatype Loop = Loop(results: seq<Entry>, used: nat, completed: nat, pending: Option<Baseline>, stop: Option<Stop>)

  /** Every round is right, reported at its place, and no round but the last ended the batch. */
  ghost predicate RoundsOk(
    commands: seq<Command>, results: seq<Entry>, rounds: seq<Round>, stopOnError: bool, deadline: nat)
  {
    && |rounds| == |results| <= |commands|
    && (forall i: nat :: i < |rounds| ==> RoundAt(commands, results, rounds, i, stopOnError, deadline))
    && (forall i: nat :: i < |rounds| - 1 ==>
          StopOf(rounds[i], i, |commands|, stopOnError, deadline) == None)
  }

  /** One round is right and reported at its place. */
  ghost predicate RoundAt(
    commands: seq<Command>, results: seq<Entry>, rounds: seq<Round>, i: nat, stopOnError: bool, deadline: nat)
    requires i < |rounds| == |results|
  {
    && RoundOk(commands, rounds[i], i, Carried(rounds, i), stopOnError, deadline)
    && Reports(results[i], rounds[i], i, Used(results[..i]))
  }

  lemma RoundStays(
    commands: seq<Command>, results: seq<Entry>, rounds: seq<Round>, entry: Entry, round: Round, i: nat,
    stopOnError: bool, deadline: nat)
    requires i < |rounds| == |results| && RoundAt(commands, results, rounds, i, stopOnError, deadline)
    ensures RoundAt(commands, results + [entry], rounds + [round], i, stopOnError, deadline)
  {
    assert (results + [entry])[..i] == results[..i];
  }

  ghost function FinalStop(rounds: seq<Round>, total: nat, stopOnError: bool, deadline: nat): Option<Stop> {
    if rounds == [] then None
    else StopOf(rounds[|rounds| - 1], |rounds| - 1, total, stopOnError, deadline)
  }

  /** What every iteration keeps. */
  ghost predicate LoopOk(
    events: seq<Event>, commands: seq<Command>, loop: Loop, rounds: seq<Round>, stopOnError: bool, deadline: nat)
  {
    && events == EventsUpTo(rounds, |rounds|)
    && RoundsOk(commands, loop.results, rounds, stopOnError, deadline)
    && loop.stop == FinalStop(rounds, |commands|, stopOnError, deadline)
    && loop.pending == Carried(rounds, |rounds|)
    && loop.used == Used(loop.results) && loop.completed == |DispatchOrder(events)|
  }

  lemma OneMoreRound(
    commands: seq<Command>, results: seq<Entry>, entry: Entry, rounds: seq<Round>, round: Round, stopOnError: bool,
    deadline: nat)
    requires RoundsOk(commands, results, rounds, stopOnError, deadline) && |rounds| < |commands|
    requires FinalStop(rounds, |commands|, stopOnError, deadline) == None
    requires RoundOk(commands, round, |rounds|, Carried(rounds, |rounds|), stopOnError, deadline)
    requires Reports(entry, round, |rounds|, Used(results))
    ensures RoundsOk(commands, results + [entry], rounds + [round], stopOnError, deadline)
  {
    var n := |rounds|;
    var longer, entries := rounds + [round], results + [entry];
    forall i: nat | i < |longer|
      ensures RoundAt(commands, entries, longer, i, stopOnError, deadline)
    {
      if i < n {
        RoundStays(commands, results, rounds, entry, round, i, stopOnError, deadline);
      } else {
        assert longer[..n] == rounds && entries[..n] == results;
      }
    }
    LinkedRounds(rounds, round, |commands|, stopOnError, deadline);
  }

  lemma LinkedRounds(rounds: seq<Round>, round: Round, total: nat, stopOnError: bool, deadline: nat)
    requires forall i: nat :: i < |rounds| - 1 ==> StopOf(rounds[i], i, total, stopOnError, deadline) == None
    requires FinalStop(rounds, total, stopOnError, deadline) == None
    ensures forall i: nat :: i < |rounds| ==>
              StopOf((rounds + [round])[i], i, total, stopOnError, deadline) == None
  {
  }

  lemma {:induction false} SameEvents(rounds: seq<Round>, longer: seq<Round>, n: nat)
    requires n <= |rounds| && rounds <= longer
    ensures EventsUpTo(longer, n) == EventsUpTo(rounds, n)
  {
    if n > 0 {
      SameEvents(rounds, longer, n - 1);
    }
  }

  lemma MoreEvents(rounds: seq<Round>, round: Round)
    ensures EventsUpTo(rounds + [round], |rounds| + 1) == EventsUpTo(rounds, |rounds|) + EventsOf(round, |rounds|)
  {
    SameEvents(rounds, rounds + [round], |rounds|);
  }

  // ---------------------------------------------------------------- order

  ghost predicate IndexedInOrder(results: seq<Entry>) {
    forall i :: 0 <= i < |results| ==> results[i].index == i
  }

  /** The entries dispatched by the first `n` events, in order. */
  function DispatchedBy(events: seq<Event>, n: nat): seq<nat>
    requires n <= |events|
  {
    if n == 0 then []
    else DispatchedBy(events, n - 1) + (if events[n - 1].Dispatched? then [events[n - 1].index] else [])
  }

  function DispatchOrder(events: seq<Event>): seq<nat> {
    DispatchedBy(events, |events|)
  }

  lemma {:induction false} DispatchPrefix(a: seq<Event>, b: seq<Event>, n: nat)
    requires n <= |a|
    ensures DispatchedBy(a + b, n) == DispatchedBy(a, n)
  {
    if n > 0 {
      DispatchPrefix(a, b, n - 1);
    }
  }

  lemma {:induction false} DispatchSuffix(a: seq<Event>, b: seq<Event>, n: nat)
    requires n <= |b|
    ensures DispatchedBy(a + b, |a| + n) == DispatchOrder(a) + DispatchedBy(b, n)
  {
    if n == 0 {
      DispatchPrefix(a, b, |a|);
    } else {
      DispatchSuffix(a, b, n - 1);
    }
  }

  lemma DispatchAppend(a: seq<Event>, b: seq<Event>)
    ensures DispatchOrder(a + b) == DispatchOrder(a) + DispatchOrder(b)
  {
    DispatchSuffix(a, b, |b|);
  }

  lemma {:induction false} NoDispatch(events: seq<Event>, n: nat)
    requires n <= |events| && forall i :: 0 <= i < n ==> !events[i].Dispatched?
    ensures DispatchedBy(events, n) == []
  {
    if n > 0 {
      NoDispatch(events, n - 1);
    }
  }

  lemma {:induction false} OneDispatch(events: seq<Event>, k: nat, n: nat)
    requires k < n <= |events| && events[k].Dispatched?
    requires forall i :: 0 <= i < n && i != k ==> !events[i].Dispatched?
    ensures DispatchedBy(events, n) == [events[k].index]
  {
    if k < n - 1 {
      OneDispatch(events, k, n - 1);
    } else {
      NoDispatch(events, k);
    }
  }

  /** A round dispatches its own entry or nothing. */
  lemma DispatchOfRound(round: Round, i: nat)
    ensures DispatchOrder(EventsOf(round, i)) == if round.Ran? then [i] else []
  {
    var events := EventsOf(round, i);
    if round.Ran? {
      RanEvents(round, i);
      OneDispatch(events, BeforeDispatch(round), |events|);
    } else {
      NoDispatch(events, |events|);
    }
  }

  lemma DispatchStep(rounds: seq<Round>, n: nat)
    requires 0 < n <= |rounds|
    ensures DispatchOrder(EventsUpTo(rounds, n))
         == DispatchOrder(EventsUpTo(rounds, n - 1)) + if rounds[n - 1].Ran? then [n - 1] else []
  {
    DispatchAppend(EventsUpTo(rounds, n - 1), EventsOf(rounds[n - 1], n - 1));
    DispatchOfRound(rounds[n - 1], n - 1);
  }

  ghost predicate Increasing(order: seq<nat>, bound: nat) {
    && (forall i, j :: 0 <= i < j < |order| ==> order[i] < order[j])
    && (forall i :: 0 <= i < |order| ==> order[i] < bound)
  }

  /** Dispatches are strictly in entry order, and are exactly the entries that ran. */
  lemma {:induction false} DispatchesIncrease(rounds: seq<Round>, n: nat)
    requires n <= |rounds|
    ensures Increasing(DispatchOrder(EventsUpTo(rounds, n)), n)
    ensures forall i :: 0 <= i < n ==> (rounds[i].Ran? <==> i in DispatchOrder(EventsUpTo(rounds, n)))
  {
    if n > 0 {
      DispatchesIncrease(rounds, n - 1);
      DispatchStep(rounds, n);
      OneMoreDispatch(rounds, n, DispatchOrder(EventsUpTo(rounds, n - 1)), DispatchOrder(EventsUpTo(rounds, n)));
    }
  }

  lemma OneMoreDispatch(rounds: seq<Round>, n: nat, front: seq<nat>, order: seq<nat>)
    requires 0 < n <= |rounds| && order == front + if rounds[n - 1].Ran? then [n - 1] else []
    requires Increasing(front, n - 1)
    requires forall i :: 0 <= i < n - 1 ==> (rounds[i].Ran? <==> i in front)
    ensures Increasing(order, n)
    ensures forall i :: 0 <= i < n ==> (rounds[i].Ran? <==> i in order)
  {
    if rounds[n - 1].Ran? {
      assert order[|front|] == n - 1;
    }
  }

  /** The events of the first rounds are the first events. */
  lemma {:induction false} EventsOfPrefix(rounds: seq<Round>, i: nat, n: nat)
    requires i <= n <= |rounds|
    ensures EventsUpTo(rounds, i) <= EventsUpTo(rounds, n)
  {
    if i < n {
      EventsOfPrefix(rounds, i, n - 1);
    }
  }

  /** How many events of a round come before its dispatch. */
  function BeforeDispatch(round: Round): nat
    requires round.Ran?
  {
    if round.captured.Some? then 3 else 2
  }

  lemma RanEvents(round: Round, i: nat)
    requires round.Ran?
    ensures var events, k := EventsOf(round, i), BeforeDispatch(round);
            && |events| == k + (if round.after.Some? then 2 else 1)
            && events[0] == Read(round.top) && events[1] == Looked(i, false)
            && (round.captured.Some? ==> events[2] == Captured(i, round.captured))
            && events[k] == Dispatched(i, round.handed, round.result)
            && (round.after.Some? ==> events[k + 1] == Read(round.after.value))
  {
  }

  // ---------------------------------------------------------------- exits

  /** Why the loop ended where it did. */
  ghost predicate ExitOk(commands: seq<Command>, results: seq<Entry>, stop: Option<Stop>, stopOnError: bool) {
    match stop
    case None => |results| == |commands|
    case Some(DeadlineAt(i)) => |results| == i + 1 && results[i].execution == NotStarted(Deadline)
    case Some(DeadlineAfter(i)) =>
      |results| == i + 1 < |commands| && results[i].execution.Completed? && !EndsBatch(results[i], stopOnError)
    case Some(StopOnError(i)) =>
      && |results| == i + 1 && stopOnError
      && (results[i].execution == NotStarted(SessionEnded) || results[i].execution == Completed(false, false))
    case Some(BaselineFailedAt(i)) =>
      && |results| == i + 1 < |commands| && results[i].execution == NotStarted(BaselineFailed)
      && commands[i + 1].waitsForEvent
    case Some(OutputLimit(i)) => |results| == i + 1 && results[i].execution.Completed? && results[i].execution.omitted
  }

  /** Only the last entry may be the one that ended the batch. */
  ghost predicate EndsBatch(entry: Entry, stopOnError: bool) {
    match entry.execution
    case NotStarted(reason) => reason.Deadline? || reason.BaselineFailed? || stopOnError
    case Completed(ok, omitted) => omitted || (!ok && stopOnError)
  }

  ghost predicate NoEarlyEnd(results: seq<Entry>, stopOnError: bool) {
    forall i :: 0 <= i < |results| - 1 ==> !EndsBatch(results[i], stopOnError)
  }

  /** Each of the exits, and running to the end, shows in the last entry, and no earlier entry would have ended the
  batch. */
  lemma ExitShows(
    commands: seq<Command>, results: seq<Entry>, rounds: seq<Round>, stop: Option<Stop>, stopOnError: bool,
    deadline: nat)
    requires RoundsOk(commands, results, rounds, stopOnError, deadline)
    requires stop == FinalStop(rounds, |commands|, stopOnError, deadline)
    requires stop.None? ==> |results| == |commands|
    ensures ExitOk(commands, results, stop, stopOnError) && NoEarlyEnd(results, stopOnError)
  {
    forall i | 0 <= i < |results| - 1
      ensures !EndsBatch(results[i], stopOnError)
    {
      assert RoundAt(commands, results, rounds, i, stopOnError, deadline);
      assert StopOf(rounds[i], i, |commands|, stopOnError, deadline) == None;
    }
    if rounds != [] {
      var i := |rounds| - 1;
      assert RoundAt(commands, results, rounds, i, stopOnError, deadline);
    }
  }

  /** Every entry kept whole fitted. */
  lemma EntriesFit(
    commands: seq<Command>, results: seq<Entry>, rounds: seq<Round>, stopOnError: bool, deadline: nat)
    requires RoundsOk(commands, results, rounds, stopOnError, deadline)
    ensures WholeEntriesFit(results) && IndexedInOrder(results)
  {
    forall i | 0 <= i < |results|
      ensures results[i].index == i
      ensures IsWhole(results[i]) ==> |results[i].bytes| <= Available(Used(results[..i]))
    {
      assert RoundAt(commands, results, rounds, i, stopOnError, deadline);
    }
  }

  // ---------------------------------------------------------------- the code

  /** The entry for a completed command: whole if it fits, otherwise a stub that keeps the disposition. */
  method BoundedEntry(index: nat, result: CommandResult, stub: seq<Byte>, used: nat)
    returns (entry: Entry, oversized: bool)
    ensures entry.index == index && entry.execution == Completed(result.ok && !oversized, oversized)
    ensures oversized <==> |result.bytes| > Available(used)
    ensures !oversized ==> entry.bytes == result.bytes && entry.disposition == result.disposition
    ensures oversized ==> entry.bytes == stub
                          && entry.disposition
                             == Some(if result.disposition.Some? then result.disposition.value else Uncertain)
  {
    var fits := SerializedFits([result.bytes], Available(used));
    assert TotalLength([result.bytes]) == |result.bytes| + TotalLength([]);
    if fits {
      return Entry(index, Completed(result.ok, false), result.disposition, result.bytes), false;
    }
    var disposition := if result.disposition.Some? then result.disposition.value else Uncertain;
    return Entry(index, Completed(false, true), Some(disposition), stub), true;
  }

  class Executor {
    var events: seq<Event>
    var now: nat

    constructor (now: nat)
      ensures events == [] && this.now == now
    {
      this.events, this.now := [], now;
    }

    method ReadClock() returns (time: nat)
      modifies this
      ensures old(now) <= now == time && events == old(events) + [Read(time)]
    {
      var later: int := *;
      if later > 0 {
        now := now + later;
      }
      time := now;
      events := events + [Read(time)];
    }

    method LookAtSession(index: nat) returns (ended: bool)
      modifies this`events
      ensures events == old(events) + [Looked(index, ended)]
    {
      ended := *;
      events := events + [Looked(index, ended)];
    }

    method CaptureBaseline(during: nat) returns (baseline: Option<Baseline>)
      modifies this`events
      ensures events == old(events) + [Captured(during, baseline)]
    {
      baseline := *;
      events := events + [Captured(during, baseline)];
    }

    method Dispatch(index: nat, handed: Option<Baseline>) returns (result: CommandResult)
      modifies this`events
      ensures events == old(events) + [Dispatched(index, handed, result)]
    {
      result := *;
      events := events + [Dispatched(index, handed, result)];
    }

    /** `push_small_entry` for an entry that was not started. */
    method PushSkipped(loop: Loop, reason: Reason) returns (next: Loop, entry: Entry)
      ensures entry.index == |loop.results| && entry.execution == NotStarted(reason)
      ensures entry.disposition == Some(NotDelivered)
      ensures next == loop.(results := loop.results + [entry], used := loop.used + |entry.bytes| + 1)
    {
      var bytes: seq<Byte> := *;
      entry := Entry(|loop.results|, NotStarted(reason), Some(NotDelivered), bytes);
      next := loop.(results := loop.results + [entry], used := loop.used + |bytes| + 1);
    }

    /** Dispatches the next entry with the carried baseline and pushes its result. */
    method RunEntry(loop: Loop, handed: Option<Baseline>)
      returns (next: Loop, entry: Entry, result: CommandResult, oversized: bool)
      modifies this`events
      ensures events == old(events) + [Dispatched(|loop.results|, handed, result)]
      ensures oversized <==> |result.bytes| > Available(loop.used)
      ensures entry.index == |loop.results| && entry.execution == Completed(result.ok && !oversized, oversized)
      ensures !oversized ==> entry.bytes == result.bytes && entry.disposition == result.disposition
      ensures oversized ==>
                entry.disposition == Some(if result.disposition.Some? then result.disposition.value else Uncertain)
      ensures next == loop.(results := loop.results + [entry],
                            used := loop.used + |entry.bytes| + 1,
                            completed := loop.completed + 1)
    {
      var index := |loop.results|;
      result := Dispatch(index, handed);
      var stub: seq<Byte> := *;
      entry, oversized := BoundedEntry(index, result, stub, loop.used);
      next := loop.(results := loop.results + [entry],
                    used := loop.used + |entry.bytes| + 1,
                    completed := loop.completed + 1);
    }

    /** The baseline for the entry after `index`, captured before `index` runs. */
    method CaptureForNext(commands: seq<Command>, index: nat) returns (captured: Option<Baseline>, blocked: bool)
      modifies this`events
      ensures events == old(events) + (if NextWaits(commands, index) then [Captured(index, captured)] else [])
      ensures blocked <==> NextWaits(commands, index) && captured.None?
      ensures captured.Some? ==> NextWaits(commands, index)
    {
      captured, blocked := None, false;
      if index + 1 < |commands| && commands[index + 1].waitsForEvent {
        captured := CaptureBaseline(index);
        blocked := captured.None?;
      }
    }

    /** One iteration: one more round, with its entry and its exit, if any. */
    method Iterate(
      commands: seq<Command>, loop: Loop, stopOnError: bool, deadline: nat, ghost rounds: seq<Round>)
      returns (next: Loop, ghost round: Round)
      requires LoopOk(events, commands, loop, rounds, stopOnError, deadline)
      requires |loop.results| < |commands| && loop.stop.None?
      modifies this
      ensures old(now) <= now && |next.results| == |loop.results| + 1
      ensures LoopOk(events, commands, next, rounds + [round], stopOnError, deadline)
    {
      var index := |loop.results|;
      ghost var entry;
      next, round, entry := IterateOnce(commands, loop, stopOnError, deadline);
      OneMoreRound(commands, loop.results, entry, rounds, round, stopOnError, deadline);
      MoreEvents(rounds, round);
      UsedAppend(loop.results, entry);
      DispatchAppend(old(events), EventsOf(round, index));
      DispatchOfRound(round, index);
    }

    /** The body of the loop. */
    method IterateOnce(commands: seq<Command>, loop: Loop, stopOnError: bool, deadline: nat)
      returns (next: Loop, ghost round: Round, ghost entry: Entry)
      requires |loop.results| < |commands| && loop.stop.None?
      modifies this
      ensures old(now) <= now && events == old(events) + EventsOf(round, |loop.results|)
      ensures RoundOk(commands, round, |loop.results|, loop.pending, stopOnError, deadline)
      ensures Reports(entry, round, |loop.results|, loop.used)
      ensures next == Loop(loop.results + [entry], loop.used + |entry.bytes| + 1,
                           loop.completed + (if round.Ran? then 1 else 0), CarriedBy(round),
                           StopOf(round, |loop.results|, |commands|, stopOnError, deadline))
    {
      var index := |loop.results|;
      var time := ReadClock();
      if deadline <= time {
        next, entry := PushSkipped(loop.(pending := None), Deadline);
        return next.(stop := Some(DeadlineAt(index))), Late(time), entry;
      }
      var ended := LookAtSession(index);
      if ended {
        next, entry := PushSkipped(loop.(pending := None), SessionEnded);
        if stopOnError {
          next := next.(stop := Some(StopOnError(index)));
        }
        return next, Ended(time), entry;
      }
      next, round, entry := CaptureAndRun(commands, loop, stopOnError, deadline, time);
    }

    /** The rest of an iteration: capture for the next entry, dispatch this one, decide whether to go on. */
    method CaptureAndRun(
      commands: seq<Command>, loop: Loop, stopOnError: bool, deadline: nat, ghost top: nat)
      returns (next: Loop, ghost round: Round, ghost entry: Entry)
      requires |loop.results| < |commands| && loop.stop.None? && top < deadline
      modifies this
      ensures old(now) <= now && (round.Blocked? || round.Ran?) && round.top == top
      ensures old(events) <= events
      ensures [Read(top), Looked(|loop.results|, false)] + events[|old(events)|..] == EventsOf(round, |loop.results|)
      ensures RoundOk(commands, round, |loop.results|, loop.pending, stopOnError, deadline)
      ensures Reports(entry, round, |loop.results|, loop.used)
      ensures next == Loop(loop.results + [entry], loop.used + |entry.bytes| + 1,
                           loop.completed + (if round.Ran? then 1 else 0), CarriedBy(round),
                           StopOf(round, |loop.results|, |commands|, stopOnError, deadline))
    {
      var index := |loop.results|;
      var captured, blocked := CaptureForNext(commands, index);
      if blocked {
        next, entry := PushSkipped(loop.(pending := None), BaselineFailed);
        return next.(stop := Some(BaselineFailedAt(index))), Blocked(top), entry;
      }
      var result, oversized;
      next, entry, result, oversized := RunEntry(loop.(pending := captured), loop.pending);
      round := Ran(top, captured, loop.pending, result, !oversized, None);
      if oversized {
        next := next.(stop := Some(OutputLimit(index)));
        return;
      }
      if !result.ok && stopOnError {
        next := next.(stop := Some(StopOnError(index)));
        return;
      }
      var time := ReadClock();
      round := round.(after := Some(time));
      if deadline <= time && index + 1 < |commands| {
        next := next.(stop := Some(DeadlineAfter(index)));
      }
    }

    /** The whole batch. */
    method Execute(commands: seq<Command>, stopOnError: bool, deadline: nat, metadata: nat)
      returns (outcome: Outcome, ghost loop: Loop, ghost rounds: seq<Round>)
      requires events == []
      modifies this
      ensures LoopOk(events, commands, loop, rounds, stopOnError, deadline)
      ensures loop.stop.None? ==> |rounds| == |commands|
      ensures ExitOk(commands, loop.results, loop.stop, stopOnError) && NoEarlyEnd(loop.results, stopOnError)
      ensures outcome.Body? <==> |ArrayBytes(loop.results)| + metadata <= MAX_OUTPUT_BYTES
      ensures outcome.Body? ==> outcome == Body(loop.results, loop.completed, loop.stop)
      ensures outcome.TooLarge? ==>
                && outcome.completed == |DispatchOrder(events)|
                && outcome.disposition == if DispatchOrder(events) == [] then NotDelivered else Uncertain
    {
      var l := Loop([], 0, 0, None, None);
      rounds := [];
      while |l.results| < |commands| && l.stop.None?
        invariant LoopOk(events, commands, l, rounds, stopOnError, deadline)
        decreases |commands| - |l.results|
      {
        ghost var round;
        l, round := Iterate(commands, l, stopOnError, deadline, rounds);
        rounds := rounds + [round];
      }
      loop := l;
      ExitShows(commands, l.results, rounds, l.stop, stopOnError, deadline);
      TailLength(l.results);
      var length := if l.results == [] then 2 else l.used + 1;
      if length + metadata > MAX_OUTPUT_BYTES {
        return TooLarge(l.completed, if l.completed == 0 then NotDelivered else Uncertain), l, rounds;
      }
      return Body(l.results, l.completed, l.stop), l, rounds;
    }
  }

  // ---------------------------------------------------------------- what a finished batch says

  /** Each entry is dispatched at most once, in order, and its result stands at its own position. */
  lemma DispatchedOnceInOrder(
    events: seq<Event>, commands: seq<Command>, loop: Loop, rounds: seq<Round>, stopOnError: bool, deadline: nat)
    requires LoopOk(events, commands, loop, rounds, stopOnError, deadline)
    ensures var order := DispatchOrder(events);
            && (forall i, j :: 0 <= i < j < |order| ==> order[i] < order[j])
            && (forall i :: 0 <= i < |order| ==> order[i] < |loop.results|)
            && (forall i :: 0 <= i < |loop.results| ==> (loop.results[i].execution.Completed? <==> i in order))
    ensures IndexedInOrder(loop.results) && WholeEntriesFit(loop.results)
  {
    DispatchesIncrease(rounds, |rounds|);
    EntriesFit(commands, loop.results, rounds, stopOnError, deadline);
    forall i | 0 <= i < |loop.results|
      ensures loop.results[i].execution.Completed? <==> rounds[i].Ran?
    {
      assert RoundAt(commands, loop.results, rounds, i, stopOnError, deadline);
    }
  }

  /** A dispatched entry: the clock was read before the deadline in its own round, right before the look at its
  session and the capture. The event after its command is another reading of the clock, unless the batch ended there
  for its size or its error; a reading at or past the deadline ends the batch if another entry is left. */
  lemma DeadlineIsKept(
    events: seq<Event>, commands: seq<Command>, loop: Loop, rounds: seq<Round>, stopOnError: bool, deadline: nat,
    i: nat)
    returns (top: nat, k: nat)
    requires LoopOk(events, commands, loop, rounds, stopOnError, deadline)
    requires i < |loop.results| && loop.results[i].execution.Completed?
    ensures top + 1 < k < |events| && events[k].Dispatched? && events[k].index == i
    ensures events[top].Read? && events[top].time < deadline && events[top + 1] == Looked(i, false)
    ensures k == top + 2 || (k == top + 3 && events[top + 2].Captured?)
    ensures k + 1 == |events| ==> loop.stop == Some(OutputLimit(i)) || loop.stop == Some(StopOnError(i))
    ensures k + 1 < |events| ==> events[k + 1].Read?
    ensures k + 1 < |events| && deadline <= events[k + 1].time && i + 1 < |commands| ==>
              |events| == k + 2 && loop.stop == Some(DeadlineAfter(i))
  {
    assert RoundAt(commands, loop.results, rounds, i, stopOnError, deadline);
    if i < |rounds| - 1 {
      assert StopOf(rounds[i], i, |commands|, stopOnError, deadline) == None;
    }
    top, k := RanIsAt(rounds, i);
  }

  /** A dispatched entry's events among all events. */
  lemma RanIsAt(rounds: seq<Round>, i: nat) returns (top: nat, k: nat)
    requires i < |rounds| && rounds[i].Ran?
    ensures var all, round := EventsUpTo(rounds, |rounds|), rounds[i];
            && top == |EventsUpTo(rounds, i)| && k == top + BeforeDispatch(round) < |all|
            && all[top] == Read(round.top) && all[top + 1] == Looked(i, false)
            && (round.captured.Some? ==> all[top + 2] == Captured(i, round.captured))
            && all[k] == Dispatched(i, round.handed, round.result)
            && (round.after.Some? ==> k + 1 < |all| && all[k + 1] == Read(round.after.value))
            && (i == |rounds| - 1 ==> |all| == k + (if round.after.Some? then 2 else 1))
  {
    top, k := |EventsUpTo(rounds, i)|, |EventsUpTo(rounds, i)| + BeforeDispatch(rounds[i]);
    Placed(rounds, i);
    RanAmong(EventsUpTo(rounds, |rounds|), EventsUpTo(rounds, i), rounds[i], i);
  }

  lemma Placed(rounds: seq<Round>, i: nat)
    requires i < |rounds|
    ensures EventsUpTo(rounds, i) + EventsOf(rounds[i], i) <= EventsUpTo(rounds, |rounds|)
    ensures i == |rounds| - 1 ==> EventsUpTo(rounds, i) + EventsOf(rounds[i], i) == EventsUpTo(rounds, |rounds|)
  {
    EventsOfPrefix(rounds, i + 1, |rounds|);
  }

  lemma PickAll(all: seq<Event>, front: seq<Event>, mine: seq<Event>)
    requires front + mine <= all
    ensures |front| + |mine| <= |all|
    ensures forall n: nat :: n < |mine| ==> all[|front| + n] == mine[n]
  {
    forall n: nat | n < |mine|
      ensures all[|front| + n] == mine[n]
    {
      assert (front + mine)[|front| + n] == mine[n];
    }
  }

  lemma RanAmong(all: seq<Event>, front: seq<Event>, round: Round, i: nat)
    requires round.Ran? && front + EventsOf(round, i) <= all
    ensures var top := |front|; var k := top + BeforeDispatch(round);
            && k < |all| && all[top] == Read(round.top) && all[top + 1] == Looked(i, false)
            && (round.captured.Some? ==> all[top + 2] == Captured(i, round.captured))
            && all[k] == Dispatched(i, round.handed, round.result)
            && (round.after.Some? ==> k + 1 < |all| && all[k + 1] == Read(round.after.value))
            && (front + EventsOf(round, i) == all ==> |all| == k + (if round.after.Some? then 2 else 1))
  {
    RanEvents(round, i);
    PickAll(all, front, EventsOf(round, i));
    assert all[|front| + 0] == EventsOf(round, i)[0] && all[|front| + 1] == EventsOf(round, i)[1];
  }

  /** A batch that reports a deadline has seen it pass. */
  lemma DeadlineExitIsReal(
    events: seq<Event>, commands: seq<Command>, loop: Loop, rounds: seq<Round>, stopOnError: bool, deadline: nat)
    requires LoopOk(events, commands, loop, rounds, stopOnError, deadline)
    requires loop.stop.Some? && (loop.stop.value.DeadlineAt? || loop.stop.value.DeadlineAfter?)
    ensures |events| > 0 && events[|events| - 1].Read? && deadline <= events[|events| - 1].time
  {
    var i := |rounds| - 1;
    assert RoundAt(commands, loop.results, rounds, i, stopOnError, deadline);
    PickAll(events, EventsUpTo(rounds, i), EventsOf(rounds[i], i));
    if rounds[i].Ran? {
      RanEvents(rounds[i], i);
    }
  }

  /** A baseline reaches an event wait only across a dispatched predecessor, captured right before that ran; an event
  wait after a dispatched predecessor always gets one. */
  lemma BaselinePrecedesAction(
    events: seq<Event>, commands: seq<Command>, loop: Loop, rounds: seq<Round>, stopOnError: bool, deadline: nat,
    j: nat)
    returns (m: nat, k: nat)
    requires LoopOk(events, commands, loop, rounds, stopOnError, deadline)
    requires j < |rounds| && rounds[j].Ran?
    ensures rounds[j].handed.Some? <==>
              j > 0 && commands[j].waitsForEvent && loop.results[j - 1].execution.Completed?
    ensures k < |events| && events[k] == Dispatched(j, rounds[j].handed, rounds[j].result)
    ensures rounds[j].handed.Some? ==>
              && m + 1 < k && events[m] == Captured(j - 1, rounds[j].handed)
              && events[m + 1].Dispatched? && events[m + 1].index == j - 1
  {
    assert RoundAt(commands, loop.results, rounds, j, stopOnError, deadline);
    var _, position := RanIsAt(rounds, j);
    m, k := 0, position;
    if j > 0 {
      Predecessor(commands, loop.results, rounds, stopOnError, deadline, j);
      if rounds[j].handed.Some? {
        m := CaptureIsAt(rounds, j);
      }
    }
  }

  lemma Predecessor(
    commands: seq<Command>, results: seq<Entry>, rounds: seq<Round>, stopOnError: bool, deadline: nat, j: nat)
    requires RoundsOk(commands, results, rounds, stopOnError, deadline) && 0 < j < |rounds|
    ensures Carried(rounds, j).Some? <==> commands[j].waitsForEvent && results[j - 1].execution.Completed?
    ensures Carried(rounds, j).Some? ==>
              rounds[j - 1].Ran? && rounds[j - 1].captured == Carried(rounds, j)
  {
    assert RoundAt(commands, results, rounds, j - 1, stopOnError, deadline);
  }

  lemma CaptureIsAt(rounds: seq<Round>, j: nat) returns (m: nat)
    requires 0 < j < |rounds| && rounds[j - 1].Ran? && rounds[j - 1].captured.Some?
    ensures m + 1 < |EventsUpTo(rounds, j)| && m + 1 < |EventsUpTo(rounds, |rounds|)|
    ensures EventsUpTo(rounds, |rounds|)[m] == Captured(j - 1, rounds[j - 1].captured)
    ensures EventsUpTo(rounds, |rounds|)[m + 1] == Dispatched(j - 1, rounds[j - 1].handed, rounds[j - 1].result)
  {
    var top, _ := RanIsAt(rounds, j - 1);
    m := top + 2;
    RanEvents(rounds[j - 1], j - 1);
  }
}
