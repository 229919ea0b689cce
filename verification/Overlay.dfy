/** The hide/show bracket that dispatch puts around mutating headed commands, recursively through batch. */
module Overlay {
  import opened Common

  type Session = nat

  datatype Call = Hide(session: Session) | Show(session: Session)

  /** The two flags of the interaction policy; headed means both. */
  datatype Context = Context(session: Option<Session>, focusSteal: bool, cursorMove: bool, overlayEnabled: bool)

  /** A batch item carries its own context. */
  datatype Item = Item(command: Command, context: Context)

  datatype Command = Plain(mutating: bool) | Drag | BatchOf(items: seq<Item>)

  predicate IsMutating(command: Command) {
    match command
    case Plain(mutating) => mutating
    case _ => true
  }

  function EnabledSession(context: Context): Option<Session> {
    if context.overlayEnabled then context.session else None
  }

  function OverlaySession(command: Command, context: Context): Option<Session> {
    if IsMutating(command) && context.focusSteal && context.cursorMove then EnabledSession(context) else None
  }

  // ---------------------------------------------------------------- bracket words

  /** Runs the calls against the stack of open hides; None if a show does not match the innermost one. */
  function Replay(calls: seq<Call>, open: seq<Session>): Option<seq<Session>> {
    if calls == [] then Some(open)
    else match calls[0]
      case Hide(s) => Replay(calls[1..], [s] + open)
      case Show(s) => if open != [] && open[0] == s then Replay(calls[1..], open[1..]) else None
  }

  /** A bracket word: it replays on any stack and leaves it as it was. */
  ghost predicate IsBracketWord(calls: seq<Call>) {
    forall open :: Replay(calls, open) == Some(open)
  }

  lemma {:induction false} ReplayAppend(a: seq<Call>, b: seq<Call>, open: seq<Session>)
    ensures Replay(a + b, open) == (if Replay(a, open).Some? then Replay(b, Replay(a, open).value) else None)
  {
    if a == [] {
      assert a + b == b;
    } else {
      assert (a + b)[1..] == a[1..] + b;
      match a[0]
      case Hide(s) => ReplayAppend(a[1..], b, [s] + open);
      case Show(s) =>
        if open != [] && open[0] == s {
          ReplayAppend(a[1..], b, open[1..]);
        }
    }
  }

  lemma JoinWords(a: seq<Call>, b: seq<Call>)
    requires IsBracketWord(a) && IsBracketWord(b)
    ensures IsBracketWord(a + b)
  {
    forall open
      ensures Replay(a + b, open) == Some(open)
    {
      ReplayAppend(a, b, open);
    }
  }

  lemma EncloseWord(inner: seq<Call>, s: Session)
    requires IsBracketWord(inner)
    ensures IsBracketWord([Hide(s)] + inner + [Show(s)])
  {
    var word := [Hide(s)] + inner + [Show(s)];
    forall open
      ensures Replay(word, open) == Some(open)
    {
      assert word == [Hide(s)] + (inner + [Show(s)]);
      assert word[1..] == inner + [Show(s)];
      ReplayAppend(inner, [Show(s)], [s] + open);
      assert ([s] + open)[1..] == open;
      assert Replay([Show(s)], [s] + open) == Replay([], open);
    }
  }

  // ---------------------------------------------------------------- per session

  function Depth(calls: seq<Call>, s: Session): int {
    if calls == [] then 0
    else Depth(calls[..|calls| - 1], s) + (match calls[|calls| - 1]
      case Hide(t) => if t == s then 1 else 0
      case Show(t) => if t == s then -1 else 0)
  }

  function CountIn(open: seq<Session>, s: Session): nat {
    if open == [] then 0 else (if open[0] == s then 1 else 0) + CountIn(open[1..], s)
  }

  lemma {:induction false} DepthIsOpenCount(calls: seq<Call>, s: Session)
    requires Replay(calls, []).Some?
    ensures Depth(calls, s) == CountIn(Replay(calls, []).value, s)
    decreases |calls|
  {
    if calls != [] {
      var front := calls[..|calls| - 1];
      var last := calls[|calls| - 1];
      assert calls == front + [last];
      ReplayAppend(front, [last], []);
      DepthIsOpenCount(front, s);
      var open := Replay(front, []).value;
      assert [last][1..] == [];
      if last.Hide? {
        assert ([last.session] + open)[1..] == open;
      }
    }
  }

  /** In a bracket word each session's shows never outrun its hides, and none is left open at the end. */
  lemma SessionsBalance(calls: seq<Call>, s: Session, n: nat)
    requires IsBracketWord(calls) && n <= |calls|
    ensures Depth(calls[..n], s) >= 0
    ensures Depth(calls, s) == 0
  {
    assert Replay(calls, []) == Some([]);
    assert calls == calls[..n] + calls[n..];
    ReplayAppend(calls[..n], calls[n..], []);
    DepthIsOpenCount(calls[..n], s);
    DepthIsOpenCount(calls, s);
  }

  lemma {:induction false} DepthAppend(a: seq<Call>, b: seq<Call>, s: Session)
    ensures Depth(a + b, s) == Depth(a, s) + Depth(b, s)
  {
    if b == [] {
      assert a + b == a;
    } else {
      var n := |b| - 1;
      DepthAppend(a, b[..n], s);
      assert (a + b)[..|a| + n] == a + b[..n];
    }
  }

  /** No prefix has shown a session more often than it has hidden it. */
  ghost predicate NeverBelow(calls: seq<Call>, s: Session) {
    forall n :: 0 <= n <= |calls| ==> Depth(calls[..n], s) >= 0
  }

  lemma NeverBelowAppend(a: seq<Call>, b: seq<Call>, s: Session)
    requires NeverBelow(a, s) && NeverBelow(b, s)
    ensures NeverBelow(a + b, s)
  {
    forall n | 0 <= n <= |a + b|
      ensures Depth((a + b)[..n], s) >= 0
    {
      if n <= |a| {
        assert (a + b)[..n] == a[..n];
      } else {
        assert (a + b)[..n] == a + b[..n - |a|];
        assert a[..|a|] == a;
        DepthAppend(a, b[..n - |a|], s);
      }
    }
  }

  lemma EncloseDepth(inner: seq<Call>, t: Session, s: Session)
    requires NeverBelow(inner, s)
    ensures Depth([Hide(t)] + inner + [Show(t)], s) == Depth(inner, s)
    ensures NeverBelow([Hide(t)] + inner + [Show(t)], s)
  {
    var word := [Hide(t)] + inner + [Show(t)];
    forall n | 0 <= n <= |word|
      ensures Depth(word[..n], s) >= 0
    {
      if 0 < n <= |inner| + 1 {
        assert word[..n] == [Hide(t)] + inner[..n - 1];
        DepthAppend([Hide(t)], inner[..n - 1], s);
        HideDepth(t, s);
      } else if n == |word| {
        assert word[..n] == word;
        WordDepth(inner, t, s);
        assert inner[..|inner|] == inner;
      }
    }
    WordDepth(inner, t, s);
  }

  lemma HideDepth(t: Session, s: Session)
    ensures Depth([Hide(t)], s) == (if t == s then 1 else 0)
    ensures Depth([Show(t)], s) == (if t == s then -1 else 0)
  {
    assert [Hide(t)][..0] == [] && [Show(t)][..0] == [];
  }

  lemma WordDepth(inner: seq<Call>, t: Session, s: Session)
    ensures Depth([Hide(t)] + inner + [Show(t)], s) == Depth(inner, s)
  {
    DepthAppend([Hide(t)] + inner, [Show(t)], s);
    DepthAppend([Hide(t)], inner, s);
    HideDepth(t, s);
  }

  // ---------------------------------------------------------------- what one dispatch does

  /** One dispatch: passed over by its batch, refused its scope, or carried out with the overlay session it found.
  `completed` says that the scope could be closed. */
  datatype Run = NotRun | Refused | Ran(overlay: Option<Session>, body: Body, completed: bool)

  /** What the command body did: a plain command, a drag that the policy forbids or whose targets do not resolve, a
  drag that reached the adapter, or the items of a batch. `cleanup` says that the deadline of a cleanup could be
  made. */
  datatype Body =
    | PlainBody(ok: bool)
    | Forbidden
    | Unresolved
    | DragSent(session: Option<Session>, delivered: bool, cleanup: bool, finished: bool)
    | Items(runs: seq<Run>, ok: bool)

  /** Whether the command is reported as a success. */
  predicate Succeeds(run: Run) {
    run.Ran? && run.completed && BodySucceeds(run.body)
  }

  predicate BodySucceeds(body: Body) {
    match body
    case PlainBody(ok) => ok
    case DragSent(_, delivered, _, finished) => delivered && finished
    case Items(_, ok) => ok
    case _ => false
  }

  /** What the rest of the program and the adapter answered, in order. */
  datatype Answer =
    | Scope(ok: bool)
    | PlainDone(ok: bool)
    | Targets(ok: bool)
    | Sent(ok: bool)
    | Cleanup(ok: bool)
    | Finished(ok: bool)
    | Next(decision: Decision)
    | BatchDone(ok: bool)
    | Completed(ok: bool)

  /** What a batch does with its next item. */
  datatype Decision = GoOn | PassOver | StopHere

  /** The answers of a run of a command. */
  function AnswersOf(run: Run, command: Command): seq<Answer>
    decreases run
  {
    match run
    case NotRun => []
    case Refused => [Scope(false)]
    case Ran(_, body, completed) => [Scope(true)] + AnswersOfBody(body, command) + [Completed(completed)]
  }

  function AnswersOfBody(body: Body, command: Command): seq<Answer>
    decreases body
  {
    match body
    case PlainBody(ok) => [PlainDone(ok)]
    case Forbidden => []
    case Unresolved => [Targets(false)]
    case DragSent(_, delivered, cleanup, finished) =>
      [Targets(true), Sent(delivered)] + (if delivered then [Finished(finished)] else [Cleanup(cleanup)])
    case Items(runs, ok) =>
      var items := if command.BatchOf? then command.items else [];
      AnswersOfAll(runs, items) + (if |runs| < |items| then [Next(StopHere)] else []) + [BatchDone(ok)]
  }

  function AnswersOfAll(runs: seq<Run>, items: seq<Item>): seq<Answer>
    decreases runs
  {
    if runs == [] then []
    else
      var n := |runs| - 1;
      AnswersOfAll(runs[..n], items) + [Next(if runs[n].NotRun? then PassOver else GoOn)]
      + (if n < |items| then AnswersOf(runs[n], items[n].command) else [])
  }

  /** The run is one the command can take in its context. A body may end early, and a batch may skip items. */
  ghost predicate Follows(run: Run, command: Command, context: Context)
    decreases run
  {
    run.Ran? ==>
      && run.overlay == OverlaySession(command, context)
      && match run.body
         case PlainBody(_) => command.Plain?
         case Forbidden => command.Drag? && !context.cursorMove
         case Unresolved => command.Drag? && context.cursorMove
         case DragSent(session, delivered, cleanup, finished) =>
           && command.Drag? && context.cursorMove && session == EnabledSession(context)
           && (delivered ==> !cleanup) && (finished ==> delivered)
         case Items(runs, _) =>
           && command.BatchOf? && |runs| <= |command.items|
           && forall i :: 0 <= i < |runs| ==> Follows(runs[i], command.items[i].command, command.items[i].context)
  }

  /** The calls of a run: a failed drag hides its session once more. */
  function CallsOf(run: Run): seq<Call> {
    match run
    case Ran(None, body, _) => CallsOfBody(body)
    case Ran(Some(s), body, _) => [Hide(s)] + CallsOfBody(body) + [Show(s)]
    case _ => []
  }

  function CallsOfBody(body: Body): seq<Call> {
    match body
    case DragSent(session, delivered, cleanup, _) =>
      if !delivered && cleanup && session.Some? then [Hide(session.value)] else []
    case Items(runs, _) => CallsOfAll(runs)
    case _ => []
  }

  function CallsOfAll(runs: seq<Run>): seq<Call> {
    if runs == [] then [] else CallsOfAll(runs[..|runs| - 1]) + CallsOf(runs[|runs| - 1])
  }

  /** The sessions of the drags that were cancelled, in order. */
  function Cancelled(run: Run): seq<Session> {
    match run
    case Ran(_, DragSent(session, delivered, cleanup, _), _) =>
      if !delivered && cleanup && session.Some? then [session.value] else []
    case Ran(_, Items(runs, _), _) => CancelledAll(runs)
    case _ => []
  }

  function CancelledAll(runs: seq<Run>): seq<Session> {
    if runs == [] then [] else CancelledAll(runs[..|runs| - 1]) + Cancelled(runs[|runs| - 1])
  }

  function Occurs(sessions: seq<Session>, s: Session): nat {
    if sessions == [] then 0
    else Occurs(sessions[..|sessions| - 1], s) + (if sessions[|sessions| - 1] == s then 1 else 0)
  }

  lemma {:induction false} OccursAppend(a: seq<Session>, b: seq<Session>, s: Session)
    ensures Occurs(a + b, s) == Occurs(a, s) + Occurs(b, s)
  {
    if b == [] {
      assert a + b == a;
    } else {
      var n := |b| - 1;
      OccursAppend(a, b[..n], s);
      assert (a + b)[..|a| + n] == a + b[..n];
    }
  }

  /** Whatever was cancelled: no session's shows ever outrun its hides, and the hides left open for it are
  exactly its cancelled drags. */
  lemma {:induction false} SurplusHidesAreCancelledDrags(run: Run, s: Session)
    ensures Depth(CallsOf(run), s) == Occurs(Cancelled(run), s)
    ensures NeverBelow(CallsOf(run), s)
    decreases run
  {
    match run
    case Ran(overlay, body, completed) =>
      SurplusInBody(overlay, body, completed, s);
      if overlay.Some? {
        EncloseDepth(CallsOfBody(body), overlay.value, s);
      }
    case _ =>
  }

  lemma {:induction false} SurplusInBody(overlay: Option<Session>, body: Body, completed: bool, s: Session)
    ensures Depth(CallsOfBody(body), s) == Occurs(Cancelled(Ran(overlay, body, completed)), s)
    ensures NeverBelow(CallsOfBody(body), s)
    decreases body
  {
    match body
    case DragSent(session, _, _, _) =>
      if session.Some? {
        HideDepth(session.value, s);
        assert [session.value][..0] == [] && [Hide(session.value)][..1] == [Hide(session.value)];
      }
    case Items(runs, _) => SurplusInAll(runs, s);
    case _ =>
  }

  lemma {:induction false} SurplusInAll(runs: seq<Run>, s: Session)
    ensures Depth(CallsOfAll(runs), s) == Occurs(CancelledAll(runs), s)
    ensures NeverBelow(CallsOfAll(runs), s)
    decreases runs
  {
    if runs != [] {
      var front, last := runs[..|runs| - 1], runs[|runs| - 1];
      SurplusInAll(front, s);
      SurplusHidesAreCancelledDrags(last, s);
      DepthAppend(CallsOfAll(front), CallsOf(last), s);
      OccursAppend(CancelledAll(front), Cancelled(last), s);
      NeverBelowAppend(CallsOfAll(front), CallsOf(last), s);
    }
  }

  /** The calls of a run, of any nesting, form a bracket word exactly when no drag in it was cancelled. */
  lemma BracketIffNothingCancelled(run: Run)
    ensures IsBracketWord(CallsOf(run)) <==> Cancelled(run) == []
  {
    if Cancelled(run) == [] {
      UncancelledIsBracketed(run);
    } else if IsBracketWord(CallsOf(run)) {
      var n := |Cancelled(run)| - 1;
      var s := Cancelled(run)[n];
      SurplusHidesAreCancelledDrags(run, s);
      SessionsBalance(CallsOf(run), s, 0);
    }
  }

  lemma {:induction false} UncancelledIsBracketed(run: Run)
    requires Cancelled(run) == []
    ensures IsBracketWord(CallsOf(run))
    decreases run
  {
    match run
    case Ran(overlay, body, _) =>
      if body.Items? {
        UncancelledAllBracketed(body.runs);
      }
      if overlay.Some? {
        EncloseWord(CallsOfBody(body), overlay.value);
      }
    case _ =>
  }

  lemma {:induction false} UncancelledAllBracketed(runs: seq<Run>)
    requires CancelledAll(runs) == []
    ensures IsBracketWord(CallsOfAll(runs))
    decreases runs
  {
    if runs != [] {
      UncancelledAllBracketed(runs[..|runs| - 1]);
      UncancelledIsBracketed(runs[|runs| - 1]);
      JoinWords(CallsOfAll(runs[..|runs| - 1]), CallsOf(runs[|runs| - 1]));
    }
  }

  /** The input at which the bracket breaks: a headed drag in an enabled session that the adapter refuses. */
  lemma CancelledDragLeavesAHideOpen(s: Session)
    ensures var run := Ran(Some(s), DragSent(Some(s), false, true, false), true);
            && Follows(run, Drag, Context(Some(s), true, true, true))
            && CallsOf(run) == [Hide(s), Hide(s), Show(s)]
            && !IsBracketWord(CallsOf(run)) && Depth(CallsOf(run), s) == 1
  {
    var run := Ran(Some(s), DragSent(Some(s), false, true, false), true);
    BracketIffNothingCancelled(run);
    SurplusHidesAreCancelledDrags(run, s);
    assert [s][..0] == [];
  }

  /** Whether a command can come to cancel a drag, decided before it runs. */
  predicate CanCancel(command: Command, context: Context) {
    match command
    case Plain(_) => false
    case Drag => context.cursorMove && EnabledSession(context).Some?
    case BatchOf(items) => exists i :: 0 <= i < |items| && CanCancel(items[i].command, items[i].context)
  }

  lemma {:induction false} OnlyThoseCancel(run: Run, command: Command, context: Context)
    requires Follows(run, command, context) && !CanCancel(command, context)
    ensures Cancelled(run) == []
    decreases run, 1
  {
    if run.Ran? && run.body.Items? {
      OnlyThoseItemsCancel(run.body.runs, command.items);
    }
  }

  lemma {:induction false} OnlyThoseItemsCancel(runs: seq<Run>, items: seq<Item>)
    requires |runs| <= |items|
    requires forall i :: 0 <= i < |runs| ==> Follows(runs[i], items[i].command, items[i].context)
    requires forall i :: 0 <= i < |items| ==> !CanCancel(items[i].command, items[i].context)
    ensures CancelledAll(runs) == []
    decreases runs, 0
  {
    if runs != [] {
      var n := |runs| - 1;
      OnlyThoseItemsCancel(runs[..n], items);
      OnlyThoseCancel(runs[n], items[n].command, items[n].context);
    }
  }

  lemma {:induction false} ThoseDoCancel(command: Command, context: Context) returns (run: Run)
    requires CanCancel(command, context)
    ensures Follows(run, command, context) && Cancelled(run) != []
    decreases command
  {
    if command.Drag? {
      run := Ran(OverlaySession(command, context), DragSent(EnabledSession(context), false, true, false), true);
    } else {
      var i :| 0 <= i < |command.items| && CanCancel(command.items[i].command, command.items[i].context);
      var inner := ThoseDoCancel(command.items[i].command, command.items[i].context);
      var runs := seq(i, _ => NotRun) + [inner];
      assert runs[..i] == seq(i, _ => NotRun) && runs[|runs| - 1] == inner;
      run := Ran(OverlaySession(command, context), Items(runs, true), true);
    }
  }

  /** All runs of a command are bracket words exactly when it contains no drag that may move the cursor in an
  enabled session: everything else keeps its hides and shows balanced on every error path. */
  lemma AlwaysBracketedIff(command: Command, context: Context)
    ensures (forall run :: Follows(run, command, context) ==> IsBracketWord(CallsOf(run))) <==>
              !CanCancel(command, context)
  {
    if CanCancel(command, context) {
      var run := ThoseDoCancel(command, context);
      BracketIffNothingCancelled(run);
    } else {
      forall run | Follows(run, command, context)
        ensures IsBracketWord(CallsOf(run))
      {
        OnlyThoseCancel(run, command, context);
        BracketIffNothingCancelled(run);
      }
    }
  }

  /** Which commands get the bracket, in the terms of the request: exactly those that change something, in a context
  that may steal the focus and move the cursor, with a session whose overlay is enabled. It is there on every path
  after the scope was opened, the outer hide first and the outer show last, also around a cancelled drag. */
  lemma OuterPairSurvives(run: Run, command: Command, context: Context)
    requires Follows(run, command, context) && run.Ran?
    ensures var wanted := && (command.Drag? || command.BatchOf? || (command.Plain? && command.mutating))
                          && context.focusSteal && context.cursorMove
                          && context.overlayEnabled && context.session.Some?;
            if wanted then
              var s, calls := context.session.value, CallsOf(run);
              |calls| >= 2 && calls[0] == Hide(s) && calls[|calls| - 1] == Show(s) && run.overlay == Some(s)
            else run.overlay.None? && CallsOf(run) == CallsOfBody(run.body)
  {
  }

  /** A command that is no drag and holds no batch makes the two calls of its own bracket or none. */
  lemma PlainCalls(run: Run, command: Command, context: Context)
    requires Follows(run, command, context) && command.Plain? && run.Ran?
    ensures CallsOf(run) == match OverlaySession(command, context)
                            case Some(s) => [Hide(s), Show(s)]
                            case None => []
  {
  }

  lemma OneMoreItem(runs: seq<Run>, run: Run, items: seq<Item>)
    requires |runs| < |items|
    ensures AnswersOfAll(runs + [run], items)
         == AnswersOfAll(runs, items)
            + ([Next(if run.NotRun? then PassOver else GoOn)] + AnswersOf(run, items[|runs|].command))
    ensures CallsOfAll(runs + [run]) == CallsOfAll(runs) + CallsOf(run)
  {
    assert (runs + [run])[..|runs|] == runs;
  }

  /** A batch so far: its items in order, each a run that its command can take. */
  ghost predicate BatchSoFar(runs: seq<Run>, items: seq<Item>) {
    && |runs| <= |items|
    && forall i :: 0 <= i < |runs| ==> Follows(runs[i], items[i].command, items[i].context)
  }

  /** A batch so far, with the calls and the answers of its items. */
  datatype Account = Account(items: seq<Item>, runs: seq<Run>, made: seq<Call>, said: seq<Answer>)

  ghost predicate Adds(account: Account) {
    && BatchSoFar(account.runs, account.items)
    && account.made == CallsOfAll(account.runs) && account.said == AnswersOfAll(account.runs, account.items)
  }

  type Ledger = account: Account | Adds(account) ghost witness Account([], [], [], [])

  lemma EnterRun(ledger: Ledger, run: Run) returns (longer: Ledger)
    requires |ledger.runs| < |ledger.items|
    requires var item := ledger.items[|ledger.runs|]; Follows(run, item.command, item.context)
    ensures var command := ledger.items[|ledger.runs|].command;
            && longer.items == ledger.items && |longer.runs| == |ledger.runs| + 1
            && longer.made == ledger.made + CallsOf(run)
            && longer.said
               == ledger.said + ([Next(if run.NotRun? then PassOver else GoOn)] + AnswersOf(run, command))
  {
    OneMoreItem(ledger.runs, run, ledger.items);
    longer := Account(ledger.items, ledger.runs + [run], ledger.made + CallsOf(run), ledger.said
      + ([Next(if run.NotRun? then PassOver else GoOn)] + AnswersOf(run, ledger.items[|ledger.runs|].command)));
  }

  lemma Put<T>(first: seq<T>, a: seq<T>, b: seq<T>, c: seq<T>)
    ensures ((first + a) + b) + c == first + (a + b + c)
  {
  }

  // ---------------------------------------------------------------- the code

  class Adapter {
    var calls: seq<Call>
    /** What was answered, in order. */
    ghost var told: seq<Answer>

    constructor ()
      ensures calls == [] && told == []
    {
      calls, told := [], [];
    }

    method UpdateOverlay(call: Call)
      modifies this`calls
      ensures calls == old(calls) + [call]
    {
      calls := calls + [call];
    }

    method OpenScope() returns (ok: bool)
      modifies this`told
      ensures told == old(told) + [Scope(ok)]
    {
      ok := *;
      told := told + [Scope(ok)];
    }

    method CompleteScope() returns (ok: bool)
      modifies this`told
      ensures told == old(told) + [Completed(ok)]
    {
      ok := *;
      told := told + [Completed(ok)];
    }

    method RunPlain() returns (ok: bool)
      modifies this`told
      ensures told == old(told) + [PlainDone(ok)]
    {
      ok := *;
      told := told + [PlainDone(ok)];
    }

    method ResolveTargets() returns (ok: bool)
      modifies this`told
      ensures told == old(told) + [Targets(ok)]
    {
      ok := *;
      told := told + [Targets(ok)];
    }

    method SendDrag() returns (ok: bool)
      modifies this`told
      ensures told == old(told) + [Sent(ok)]
    {
      ok := *;
      told := told + [Sent(ok)];
    }

    method CleanupDeadline() returns (ok: bool)
      modifies this`told
      ensures told == old(told) + [Cleanup(ok)]
    {
      ok := *;
      told := told + [Cleanup(ok)];
    }

    method FinishDrag() returns (ok: bool)
      modifies this`told
      ensures told == old(told) + [Finished(ok)]
    {
      ok := *;
      told := told + [Finished(ok)];
    }

    method NextItem() returns (decision: Decision)
      modifies this`told
      ensures told == old(told) + [Next(decision)]
    {
      decision := *;
      told := told + [Next(decision)];
    }

    method FinishBatch() returns (ok: bool)
      modifies this`told
      ensures told == old(told) + [BatchDone(ok)]
    {
      ok := *;
      told := told + [BatchDone(ok)];
    }

    /** One dispatch. The run it took is the one that the answers describe; its overlay calls are those of that run,
    and it succeeds exactly if that run does. */
    method Dispatch(command: Command, context: Context) returns (ok: bool, ghost run: Run)
      modifies this
      ensures Follows(run, command, context) && !run.NotRun?
      ensures calls == old(calls) + CallsOf(run) && told == old(told) + AnswersOf(run, command)
      ensures ok <==> Succeeds(run)
      decreases command, 4
    {
      var session := OverlaySession(command, context);
      var scopeOpened := OpenScope();
      if !scopeOpened {
        return false, Refused;
      }
      if session.Some? {
        UpdateOverlay(Hide(session.value));
      }
      ghost var body;
      ok, body := Execute(command, context);
      if session.Some? {
        UpdateOverlay(Show(session.value));
      }
      var completed := CompleteScope();
      run := Ran(session, body, completed);
      ok := completed && ok;
      Put(old(told), [Scope(true)], AnswersOfBody(body, command), [Completed(completed)]);
      if session.Some? {
        Put(old(calls), [Hide(session.value)], CallsOfBody(body), [Show(session.value)]);
      }
    }

    /** The command body. */
    method Execute(command: Command, context: Context) returns (ok: bool, ghost body: Body)
      modifies this
      ensures Follows(Ran(OverlaySession(command, context), body, true), command, context)
      ensures calls == old(calls) + CallsOfBody(body) && told == old(told) + AnswersOfBody(body, command)
      ensures ok <==> BodySucceeds(body)
      decreases command, 3
    {
      match command {
        case Plain(_) =>
          ok := RunPlain();
          body := PlainBody(ok);
        case Drag =>
          ok, body := ExecuteDrag(context);
        case BatchOf(items) =>
          ok, body := ExecuteBatch(command, context);
      }
    }

    /** A batch dispatches any of its items in order and may stop anywhere. */
    method ExecuteBatch(command: Command, context: Context) returns (ok: bool, ghost body: Body)
      requires command.BatchOf?
      modifies this
      ensures Follows(Ran(OverlaySession(command, context), body, true), command, context)
      ensures calls == old(calls) + CallsOfBody(body) && told == old(told) + AnswersOfBody(body, command)
      ensures ok <==> BodySucceeds(body)
      decreases command, 2
    {
      ghost var stopped, ledger := RunItems(command);
      ok := FinishBatch();
      body := Items(ledger.runs, ok);
      Put(old(told), ledger.said, if stopped then [Next(StopHere)] else [], [BatchDone(ok)]);
    }

    method RunItems(command: Command) returns (ghost stopped: bool, ghost ledger: Ledger)
      requires command.BatchOf?
      modifies this
      ensures ledger.items == command.items && (stopped <==> |ledger.runs| < |command.items|)
      ensures calls == old(calls) + ledger.made
      ensures told == old(told) + ledger.said + (if stopped then [Next(StopHere)] else [])
      decreases command, 1
    {
      ledger := Account(command.items, [], [], []);
      var n := 0;
      while n < |command.items|
        invariant |ledger.runs| == n && ledger.items == command.items
        invariant calls == old(calls) + ledger.made && told == old(told) + ledger.said
      {
        var stop;
        stop, ledger := RunNext(command, n, ledger);
        if stop {
          return true, ledger;
        }
        n := n + 1;
      }
      stopped := false;
    }

    /** The next item of a batch: dispatched, passed over, or where the batch stops. */
    method RunNext(command: Command, n: nat, ghost ledger: Ledger) returns (stopped: bool, ghost longer: Ledger)
      requires command.BatchOf? && ledger.items == command.items && n == |ledger.runs| < |command.items|
      modifies this
      ensures longer.items == command.items && |longer.runs| == (if stopped then n else n + 1)
      ensures stopped ==> longer == ledger && told == old(told) + [Next(StopHere)] && calls == old(calls)
      ensures !stopped ==>
                exists c, a ::
                  && calls == old(calls) + c && longer.made == ledger.made + c
                  && told == old(told) + a && longer.said == ledger.said + a
      decreases command, 0
    {
      ghost var run := NotRun;
      var item := command.items[n];
      var decision := NextItem();
      stopped, longer := decision.StopHere?, ledger;
      if !stopped {
        if decision.GoOn? {
          var _, dispatched := Dispatch(item.command, item.context);
          run := dispatched;
        }
        longer := EnterRun(ledger, run);
        assert told == old(told) + ([Next(decision)] + AnswersOf(run, item.command));
      }
    }

    /** The drag command: if the adapter refuses the drag, the cursor presentation of the session is hidden. */
    method ExecuteDrag(context: Context) returns (ok: bool, ghost body: Body)
      modifies this
      ensures Follows(Ran(OverlaySession(Drag, context), body, true), Drag, context)
      ensures calls == old(calls) + CallsOfBody(body) && told == old(told) + AnswersOfBody(body, Drag)
      ensures ok <==> BodySucceeds(body)
    {
      if !context.cursorMove {
        return false, Forbidden;
      }
      var resolved := ResolveTargets();
      if !resolved {
        return false, Unresolved;
      }
      var delivered := SendDrag();
      if !delivered {
        ghost var cleanup := CancelDrag(context);
        return false, DragSent(EnabledSession(context), false, cleanup, false);
      }
      ok := FinishDrag();
      body := DragSent(EnabledSession(context), true, false, ok);
    }

    method CancelDrag(context: Context) returns (ghost cleanup: bool)
      modifies this
      ensures told == old(told) + [Cleanup(cleanup)]
      ensures calls == old(calls) + (if cleanup && EnabledSession(context).Some?
                                     then [Hide(EnabledSession(context).value)] else [])
    {
      var possible := CleanupDeadline();
      cleanup := possible;
      if !possible {
        return;
      }
      var session := EnabledSession(context);
      if session.None? {
        return;
      }
      UpdateOverlay(Hide(session.value));
    }
  }
}
