/** Deadlines and the stack of inherited deadline scopes of one thread. Times are nanoseconds. */
module Deadlines {
  import opened Common

  const MS: nat := 1_000_000
  const MAX_WAIT_TIMEOUT_MS: nat := 24 * 60 * 60 * 1000
  const U64_MAX: nat := 0xFFFF_FFFF_FFFF_FFFF
  /** The largest representable instant: 2^63 - 1 seconds and the rest of that second. */
  const INSTANT_MAX: nat := 0x7FFF_FFFF_FFFF_FFFF * 1_000_000_000 + 999_999_999

  datatype Deadline = Deadline(startedAt: nat, expiresAt: nat, timeoutMs: nat, capped: bool)

  datatype Result<+T> = Ok(value: T) | Err

  function CheckedAdd(instant: nat, duration: nat): Option<nat> {
    if instant + duration <= INSTANT_MAX then Some(instant + duration) else None
  }

  function MinExpiry(d: Deadline, other: Deadline): Deadline {
    d.(capped := d.capped || other.expiresAt < d.expiresAt,
       expiresAt := if other.expiresAt < d.expiresAt then other.expiresAt else d.expiresAt)
  }

  /** Whole milliseconds, rounded up. */
  function CeilMs(duration: nat): nat {
    if duration % MS == 0 then duration / MS else duration / MS + 1
  }

  /** Rounding up overshoots by less than one millisecond, and a whole number stays as it is. */
  lemma CeilMsBounds(duration: nat)
    ensures duration <= CeilMs(duration) * MS < duration + MS
    ensures duration % MS == 0 ==> CeilMs(duration) * MS == duration
  {
  }

  // ---------------------------------------------------------------- the stack of scopes

  /** One live scope: the deadline it was entered with and the value it will restore. */
  datatype Frame = Frame(entered: Option<Deadline>, previous: Option<Deadline>)

  function Combine(parent: Option<Deadline>, child: Option<Deadline>): Option<Deadline> {
    if parent.Some? && child.Some? then Some(MinExpiry(child.value, parent.value))
    else if parent.Some? then parent else child
  }

  ghost function Effective(frames: seq<Frame>): Option<Deadline> {
    if frames == [] then None else Combine(Effective(frames[..|frames| - 1]), frames[|frames| - 1].entered)
  }

  ghost predicate Linked(frames: seq<Frame>) {
    forall i :: 0 <= i < |frames| ==> frames[i].previous == Effective(frames[..i])
  }

  lemma Entering(frames: seq<Frame>, frame: Frame)
    requires Linked(frames) && frame.previous == Effective(frames)
    ensures Linked(frames + [frame]) && Effective(frames + [frame]) == Combine(Effective(frames), frame.entered)
  {
    var longer := frames + [frame];
    assert longer[..|frames|] == frames;
    forall i | 0 <= i < |longer|
      ensures longer[i].previous == Effective(longer[..i])
    {
      assert i < |frames| ==> longer[..i] == frames[..i];
    }
  }

  lemma Leaving(frames: seq<Frame>)
    requires Linked(frames) && frames != []
    ensures Linked(frames[..|frames| - 1]) && Effective(frames[..|frames| - 1]) == frames[|frames| - 1].previous
  {
    var front := frames[..|frames| - 1];
    forall i | 0 <= i < |front|
      ensures front[i].previous == Effective(front[..i])
    {
      assert front[..i] == frames[..i] && front[i] == frames[i];
    }
  }

  /** The inherited deadline is the minimum over all live scopes that brought one. */
  lemma {:induction false} EffectiveIsMinimum(frames: seq<Frame>)
    ensures Effective(frames).Some? <==> exists i :: 0 <= i < |frames| && frames[i].entered.Some?
    ensures Effective(frames).Some? ==>
              && (forall i :: 0 <= i < |frames| && frames[i].entered.Some? ==>
                    Effective(frames).value.expiresAt <= frames[i].entered.value.expiresAt)
              && (exists i :: 0 <= i < |frames| && frames[i].entered.Some?
                              && Effective(frames).value.expiresAt == frames[i].entered.value.expiresAt)
    decreases |frames|
  {
    if frames != [] {
      var n := |frames| - 1;
      var front := frames[..n];
      EffectiveIsMinimum(front);
      assert forall i :: 0 <= i < n ==> front[i] == frames[i];
      if Effective(front).Some? {
        var i :| 0 <= i < |front| && front[i].entered.Some?
                 && Effective(front).value.expiresAt == front[i].entered.value.expiresAt;
        assert frames[i].entered.Some?;
      }
    }
  }

  /** A well-nested run: scopes with bodies, and deadlines made inside them. */
  datatype Work =
    | Scope(deadline: Option<Deadline>, body: seq<Work>)
    | MakeAfter(timeoutMs: nat)
    | MakeAt(startedAt: nat, timeoutMs: nat)
    | MakeFromDuration(duration: nat)
    | Extend(d: Deadline, pause: nat)
    | Cap(d: Deadline, maximum: nat)

  /** The deadlines that the live scopes were entered with. */
  ghost function Entered(frames: seq<Frame>): seq<Option<Deadline>> {
    seq(|frames|, i requires 0 <= i < |frames| => frames[i].entered)
  }

  /** A deadline to be made, and the scopes that are live where it is. */
  datatype Point = Point(work: Work, live: seq<Option<Deadline>>)

  /** Every deadline that some work makes, in order. */
  ghost function PointsIn(work: seq<Work>, live: seq<Option<Deadline>>): seq<Point> {
    if work == [] then [] else PointsIn(work[..|work| - 1], live) + PointsAt(work[|work| - 1], live)
  }

  ghost function PointsAt(work: Work, live: seq<Option<Deadline>>): seq<Point> {
    match work
    case Scope(deadline, body) => PointsIn(body, live + [deadline])
    case Cap(_, _) => []
    case _ => [Point(work, live)]
  }

  /** The earliest of a moment and the ends of all live scopes. */
  ghost predicate Earliest(expiresAt: nat, moment: nat, live: seq<Option<Deadline>>) {
    && expiresAt <= moment
    && (forall i :: 0 <= i < |live| && live[i].Some? ==> expiresAt <= live[i].value.expiresAt)
    && (expiresAt == moment
        || exists i :: 0 <= i < |live| && live[i].Some? && expiresAt == live[i].value.expiresAt)
  }

  predicate TooLong(startedAt: nat, timeoutMs: nat) {
    timeoutMs > MAX_WAIT_TIMEOUT_MS || startedAt + timeoutMs * MS > INSTANT_MAX
  }

  /** What came of a point while the clock went from `from` to `to`: a refusal only of a wait that is too long or
  cannot be represented, and otherwise the earliest of what was asked for and the ends of the live scopes. */
  ghost predicate MadeAt(made: Option<Deadline>, point: Point, from: nat, to: nat) {
    match made
    case None =>
      (match point.work
       case MakeAfter(timeoutMs) => TooLong(to, timeoutMs)
       case MakeAt(startedAt, timeoutMs) => TooLong(startedAt, timeoutMs)
       case MakeFromDuration(duration) => TooLong(to, CeilMs(duration))
       case _ => false)
    case Some(d) =>
      match point.work
      case MakeAfter(timeoutMs) =>
        && from <= d.startedAt <= to && d.timeoutMs == timeoutMs
        && Earliest(d.expiresAt, d.startedAt + timeoutMs * MS, point.live)
      case MakeAt(startedAt, timeoutMs) =>
        && d.startedAt == startedAt && d.timeoutMs == timeoutMs
        && Earliest(d.expiresAt, startedAt + timeoutMs * MS, point.live)
      case MakeFromDuration(duration) =>
        && from <= d.startedAt <= to && duration <= d.timeoutMs * MS < duration + MS
        && Earliest(d.expiresAt, d.startedAt + d.timeoutMs * MS, point.live)
      case Extend(e, pause) =>
        && d.startedAt == e.startedAt && d.timeoutMs == e.timeoutMs
        && Earliest(d.expiresAt, if e.expiresAt + pause <= INSTANT_MAX then e.expiresAt + pause else e.expiresAt,
                    point.live)
      case _ => false
  }

  ghost predicate AllMade(made: seq<Option<Deadline>>, points: seq<Point>, from: nat, to: nat) {
    && |made| == |points|
    && forall i :: 0 <= i < |made| ==> MadeAt(made[i], points[i], from, to)
  }

  lemma AllMadeLater(made: seq<Option<Deadline>>, points: seq<Point>, from: nat, to: nat, earlier: nat, later: nat)
    requires AllMade(made, points, from, to) && earlier <= from && to <= later
    ensures AllMade(made, points, earlier, later)
  {
    forall i | 0 <= i < |made|
      ensures MadeAt(made[i], points[i], earlier, later)
    {
      assert MadeAt(made[i], points[i], from, to);
    }
  }

  lemma MadeMore(
    made: seq<Option<Deadline>>, more: seq<Option<Deadline>>, work: seq<Work>, n: nat, live: seq<Option<Deadline>>,
    from: nat, now: nat, to: nat)
    requires n < |work| && from <= now <= to
    requires AllMade(made, PointsIn(work[..n], live), from, now) && AllMade(more, PointsAt(work[n], live), now, to)
    ensures AllMade(made + more, PointsIn(work[..n + 1], live), from, to)
  {
    assert work[..n + 1][..n] == work[..n] && work[..n + 1][n] == work[n];
    AllMadeLater(made, PointsIn(work[..n], live), from, now, from, to);
    AllMadeLater(more, PointsAt(work[n], live), now, to, from, to);
  }

  lemma InheritedIsEarliest(frames: seq<Frame>, moment: nat)
    ensures Earliest(NotAfter(moment, Effective(frames)), moment, Entered(frames))
  {
    EffectiveIsMinimum(frames);
    var live := Entered(frames);
    assert forall i :: 0 <= i < |frames| ==> live[i] == frames[i].entered;
    if Effective(frames).Some? {
      var i :| 0 <= i < |frames| && frames[i].entered.Some?
               && Effective(frames).value.expiresAt == frames[i].entered.value.expiresAt;
      assert live[i].Some?;
    }
  }

  /** No live scope ends before `d`. */
  ghost predicate WithinScopes(d: Deadline, frames: seq<Frame>) {
    forall i :: 0 <= i < |frames| && frames[i].entered.Some? ==> d.expiresAt <= frames[i].entered.value.expiresAt
  }

  /** A moment, but not after the end of an inherited deadline. */
  function NotAfter(moment: nat, inherited: Option<Deadline>): nat {
    if inherited.Some? && inherited.value.expiresAt < moment then inherited.value.expiresAt else moment
  }

  class ThreadDeadlines {
    var inherited: Option<Deadline>
    var now: nat
    ghost var frames: seq<Frame>

    ghost predicate Valid()
      reads this
    {
      Linked(frames) && inherited == Effective(frames)
    }

    constructor (now: nat)
      ensures Valid() && frames == [] && this.now == now
    {
      inherited, this.now, frames := None, now, [];
    }

    method ReadClock() returns (time: nat)
      modifies this`now
      ensures old(now) <= now == time
    {
      var later: int := *;
      if later > 0 {
        now := now + later;
      }
      time := now;
    }

    method EnterScope(deadline: Option<Deadline>) returns (previous: Option<Deadline>)
      requires Valid()
      modifies this
      ensures Valid() && now == old(now) && previous == old(inherited)
      ensures frames == old(frames) + [Frame(deadline, previous)]
    {
      previous := inherited;
      inherited := None;
      inherited := Combine(previous, deadline);
      Entering(frames, Frame(deadline, previous));
      frames := frames + [Frame(deadline, previous)];
    }

    /** Dropping the innermost scope restores the value from before it. */
    method DropScope(previous: Option<Deadline>)
      requires Valid() && frames != [] && frames[|frames| - 1].previous == previous
      modifies this
      ensures Valid() && now == old(now) && inherited == previous
      ensures frames == old(frames)[..|old(frames)| - 1]
    {
      Leaving(frames);
      inherited := previous;
      frames := frames[..|frames| - 1];
    }

    /** Bounded by every live scope. */
    method Bounded(d: Deadline) returns (r: Deadline)
      requires Valid()
      ensures WithinScopes(r, frames)
      ensures r.expiresAt == NotAfter(d.expiresAt, inherited)
      ensures r.startedAt == d.startedAt && r.timeoutMs == d.timeoutMs
      ensures r.capped <==> d.capped || r.expiresAt < d.expiresAt
    {
      r := if inherited.Some? then MinExpiry(d, inherited.value) else d;
      EffectiveIsMinimum(frames);
    }

    method DetachedAfter(timeoutMs: nat) returns (r: Result<Deadline>)
      modifies this`now
      ensures old(now) <= now
      ensures r.Ok? <==> timeoutMs <= MAX_WAIT_TIMEOUT_MS && now + timeoutMs * MS <= INSTANT_MAX
      ensures r.Ok? ==> r.value == Deadline(now, now + timeoutMs * MS, timeoutMs, false)
    {
      var startedAt := ReadClock();
      if timeoutMs > MAX_WAIT_TIMEOUT_MS {
        return Err;
      }
      var expiresAt := CheckedAdd(startedAt, timeoutMs * MS);
      if expiresAt.None? {
        return Err;
      }
      return Ok(Deadline(startedAt, expiresAt.value, timeoutMs, false));
    }

    method After(timeoutMs: nat) returns (r: Result<Deadline>)
      requires Valid()
      modifies this`now
      ensures Valid() && old(now) <= now
      ensures r.Ok? <==> timeoutMs <= MAX_WAIT_TIMEOUT_MS && now + timeoutMs * MS <= INSTANT_MAX
      ensures r.Ok? ==> && r.value.startedAt == now && r.value.timeoutMs == timeoutMs && WithinScopes(r.value, frames)
                        && r.value.expiresAt == NotAfter(now + timeoutMs * MS, inherited)
                        && (r.value.capped <==> r.value.expiresAt < now + timeoutMs * MS)
    {
      r := DetachedAfter(timeoutMs);
      if r.Ok? {
        var bounded := Bounded(r.value);
        r := Ok(bounded);
      }
    }

    method At(startedAt: nat, timeoutMs: nat) returns (r: Result<Deadline>)
      requires Valid()
      ensures r.Ok? <==> timeoutMs <= MAX_WAIT_TIMEOUT_MS && startedAt + timeoutMs * MS <= INSTANT_MAX
      ensures r.Ok? ==> && r.value.startedAt == startedAt && r.value.timeoutMs == timeoutMs
                        && WithinScopes(r.value, frames)
                        && r.value.expiresAt == NotAfter(startedAt + timeoutMs * MS, inherited)
                        && (r.value.capped <==> r.value.expiresAt < startedAt + timeoutMs * MS)
    {
      if timeoutMs > MAX_WAIT_TIMEOUT_MS {
        return Err;
      }
      var expiresAt := CheckedAdd(startedAt, timeoutMs * MS);
      if expiresAt.None? {
        return Err;
      }
      var bounded := Bounded(Deadline(startedAt, expiresAt.value, timeoutMs, false));
      return Ok(bounded);
    }

    /** The deadline is rounded up to a whole millisecond from the moment it is made. */
    method FromDuration(duration: nat) returns (r: Result<Deadline>)
      requires Valid()
      modifies this`now
      ensures Valid() && old(now) <= now
      ensures r.Ok? <==> CeilMs(duration) <= MAX_WAIT_TIMEOUT_MS && now + CeilMs(duration) * MS <= INSTANT_MAX
      ensures r.Ok? ==> && WithinScopes(r.value, frames) && r.value.expiresAt < now + duration + MS
                        && (inherited.None? ==> now + duration <= r.value.expiresAt)
                        && r.value.startedAt == now && duration <= r.value.timeoutMs * MS < duration + MS
                        && r.value.expiresAt == NotAfter(now + r.value.timeoutMs * MS, inherited)
    {
      CeilMsBounds(duration);
      var timeoutMs := CeilMs(duration);
      if timeoutMs > U64_MAX {
        return Err;
      }
      r := After(timeoutMs);
    }

    method ExtendedBy(d: Deadline, pause: nat) returns (r: Deadline)
      requires Valid()
      ensures WithinScopes(r, frames)
      ensures r.startedAt == d.startedAt && r.timeoutMs == d.timeoutMs
      ensures var later := if d.expiresAt + pause <= INSTANT_MAX then d.expiresAt + pause else d.expiresAt;
              && r.expiresAt == NotAfter(later, inherited)
              && (r.capped <==> d.capped || r.expiresAt < later)
    {
      var later := CheckedAdd(d.expiresAt, pause);
      r := Bounded(d.(expiresAt := if later.Some? then later.value else d.expiresAt));
    }

    /** Never extends a deadline; marks it as capped exactly when it shortens it. */
    method Capped(d: Deadline, maximum: nat) returns (r: Deadline)
      modifies this`now
      ensures old(now) <= now && frames == old(frames) && inherited == old(inherited)
      ensures r.expiresAt <= d.expiresAt && (now + maximum <= INSTANT_MAX ==> r.expiresAt <= now + maximum)
      ensures r.expiresAt == d.expiresAt || r.expiresAt == now + maximum
      ensures r.startedAt == d.startedAt && r.timeoutMs == d.timeoutMs
      ensures r.capped <==> d.capped || r.expiresAt < d.expiresAt
    {
      var time := ReadClock();
      var slice := CheckedAdd(time, maximum);
      var expiresAt := if slice.Some? && slice.value < d.expiresAt then slice.value else d.expiresAt;
      r := d.(capped := d.capped || expiresAt < d.expiresAt, expiresAt := expiresAt);
    }

    /** What is left, in whole milliseconds rounded up and saturated: zero exactly when expired. */
    method RemainingMs(d: Deadline) returns (ms: nat)
      modifies this`now
      ensures old(now) <= now && ms <= U64_MAX
      ensures ms == 0 <==> d.expiresAt <= now
      ensures now < d.expiresAt && ms < U64_MAX ==> d.expiresAt <= now + ms * MS < d.expiresAt + MS
      ensures ms == U64_MAX ==> now + (U64_MAX - 1) * MS < d.expiresAt
    {
      var time := ReadClock();
      var remaining := if d.expiresAt <= time then 0 else d.expiresAt - time;
      CeilMsBounds(remaining);
      ms := if CeilMs(remaining) <= U64_MAX then CeilMs(remaining) else U64_MAX;
    }

    /** Any well-nested run leaves the inherited deadline as it found it, and every deadline made in it by
    `After`, `At`, `FromDuration` or `ExtendedBy` is the earliest of what was asked for and the ends of all scopes
    live where it was made, those entered in the run included. */
    method RunAll(work: seq<Work>) returns (made: seq<Option<Deadline>>)
      requires Valid()
      modifies this
      ensures Valid() && inherited == old(inherited) && frames == old(frames) && old(now) <= now
      ensures AllMade(made, PointsIn(work, Entered(frames)), old(now), now)
      decreases work
    {
      made := [];
      for n := 0 to |work|
        invariant Valid() && inherited == old(inherited) && frames == old(frames) && old(now) <= now
        invariant AllMade(made, PointsIn(work[..n], Entered(frames)), old(now), now)
      {
        ghost var before := now;
        var more := RunOne(work[n]);
        MadeMore(made, more, work, n, Entered(frames), old(now), before, now);
        made := made + more;
      }
      assert work[..|work|] == work;
    }

    method RunOne(work: Work) returns (made: seq<Option<Deadline>>)
      requires Valid()
      modifies this
      ensures Valid() && inherited == old(inherited) && frames == old(frames) && old(now) <= now
      ensures AllMade(made, PointsAt(work, Entered(frames)), old(now), now)
      decreases work
    {
      match work {
        case Scope(deadline, body) =>
          var previous := EnterScope(deadline);
          assert Entered(frames) == Entered(old(frames)) + [deadline];
          made := RunAll(body);
          DropScope(previous);
          assert frames == old(frames);
        case Cap(d, maximum) =>
          var r := Capped(d, maximum);
          made := [];
        case _ =>
          var one := MakeOne(work);
          made := [one];
      }
    }

    method MakeOne(work: Work) returns (made: Option<Deadline>)
      requires Valid() && !work.Scope? && !work.Cap?
      modifies this`now
      ensures Valid() && old(now) <= now && MadeAt(made, Point(work, Entered(frames)), old(now), now)
    {
      match work {
        case MakeAfter(timeoutMs) =>
          var r := After(timeoutMs);
          InheritedIsEarliest(frames, now + timeoutMs * MS);
          made := Made(r);
        case MakeAt(startedAt, timeoutMs) =>
          var r := At(startedAt, timeoutMs);
          InheritedIsEarliest(frames, startedAt + timeoutMs * MS);
          made := Made(r);
        case MakeFromDuration(duration) =>
          var r := FromDuration(duration);
          if r.Ok? {
            InheritedIsEarliest(frames, now + r.value.timeoutMs * MS);
          }
          made := Made(r);
        case Extend(d, pause) =>
          var r := ExtendedBy(d, pause);
          InheritedIsEarliest(frames, if d.expiresAt + pause <= INSTANT_MAX then d.expiresAt + pause else d.expiresAt);
          made := Some(r);
      }
    }
  }

  function Made(r: Result<Deadline>): Option<Deadline> {
    if r.Ok? then Some(r.value) else None
  }
}
