/**
  One QEMU child process behind the stop protocol (internal/qemu/instance.go): the goroutine that
  reaps it, Start installing its QMP client, and any number of racing ForceStop calls.  Every critical
  section, channel operation and external call is one step.  A channel is the number of times it was
  closed.
 */
module InstanceProtocol {
  import opened Wrappers

  /** The error a ForceStop returns: none, or that of the kill. */
  type Verdict = Option<int>

  /** The reaping goroutine: in `cmd.Wait`, before its locked section, before the send, before the close. */
  datatype ReaperPc = Waiting | Reaped | Publishing | Closing | ReaperFinished

  datatype Client = Missing | Open | Closed

  /** Start after the fork: connecting, holding a client of its own, past installing it, undoing a failure. */
  datatype StarterPc = Connecting | Connected | Installed | Undoing(i: nat) | Started | StartFailed

  /** `forceOnce`: not taken, run by caller `i`, completed. */
  datatype Once = Fresh | Held(i: nat) | Completed

  /** One ForceStop call; the caller that takes the once runs the body `forceStop`. */
  datatype CallerPc =
    | Enter
    | CheckDone | AskQuit | AwaitQuit | Kill | AwaitReap(err: Verdict) | Conclude(err: Verdict)
    | AwaitForceDone | Returned(err: Verdict)

  datatype State = State(
    child: Option<int>,             // its exit code, once it has exited
    killed: bool,                   // a SIGKILL has been delivered
    reaper: ReaperPc, exit: int, done: nat,
    published: seq<int>, closed: nat, received: seq<int>,
    once: Once, forceDone: nat, forceErr: Verdict, kills: nat,
    callers: seq<CallerPc>, qmp: Client, starter: StarterPc)

  const INITIAL := State(None, false, Waiting, 0, 0, [], 0, [], Fresh, 0, None, 0, [], Missing, Connecting)

  /** What an external call answers, or which case of a select fires. */
  datatype Branch = Proceed | Fails | TimerFires | KillFails(code: int)

  datatype Event =
    | ChildExits(code: int)
    | ReaperStep
    | ReceiveExit
    | StarterStep(b: Branch)
    | Arrive
    | CallerStep(i: nat, b: Branch)

  function Moved(s: State, i: nat, pc: CallerPc): State
    requires i < |s.callers|
  {
    s.(callers := s.callers[i := pc])
  }

  /** `reap` */
  function ReaperNext(s: State): Option<State> {
    match s.reaper
    case Waiting => if s.child.Some? then Some(s.(reaper := Reaped, exit := s.child.value)) else None
    case Reaped =>
      Some(s.(reaper := Publishing, done := s.done + 1, qmp := if s.qmp == Missing then Missing else Closed))
    case Publishing =>
      // A send on a channel with a buffer of one.
      if s.published == [] then Some(s.(reaper := Closing, published := [s.exit])) else None
    case Closing => Some(s.(reaper := ReaperFinished, closed := s.closed + 1))
    case ReaperFinished => None
  }

  /** `Start` from the fork on. */
  function StarterNext(s: State, b: Branch): Option<State> {
    match s.starter
    case Connecting =>
      if b == Proceed then Some(s.(starter := Connected))
      else if b == Fails then Some(Undo(s)) else None
    case Connected =>
      if b != Proceed then None
      else if s.done > 0 then Some(Undo(s)) else Some(s.(starter := Installed, qmp := Open))
    case Installed =>
      if b == Proceed then Some(s.(starter := Started)) else if b == Fails then Some(Undo(s)) else None
    case Undoing(i) =>
      if b == Proceed && i < |s.callers| && s.callers[i].Returned? then Some(s.(starter := StartFailed)) else None
    case Started => None
    case StartFailed => None
  }

  /** `startupFailure`: Start's own ForceStop call. */
  function Undo(s: State): State {
    s.(starter := Undoing(|s.callers|), callers := s.callers + [Enter])
  }

  /** One step of the body `forceStop`. */
  function BodyNext(s: State, i: nat, b: Branch): Option<State>
    requires i < |s.callers|
  {
    match s.callers[i]
    case CheckDone => if b == Proceed then Some(Moved(s, i, if s.done > 0 then Conclude(None) else AskQuit)) else None
    case AskQuit =>
      if b == Proceed && s.qmp != Missing then Some(Moved(s, i, AwaitQuit))
      else if b == Fails then Some(Moved(s, i, Kill)) else None
    case AwaitQuit =>
      if b == Proceed && s.done > 0 then Some(Moved(s, i, Conclude(None)))
      else if b == TimerFires then Some(Moved(s, i, Kill)) else None
    case Kill =>
      if b == Proceed then Some(Moved(s, i, AwaitReap(None)).(kills := s.kills + 1, killed := true))
      else if b.KillFails? then Some(Moved(s, i, AwaitReap(Some(b.code))).(kills := s.kills + 1)) else None
    case AwaitReap(err) => if b == Proceed && s.done > 0 then Some(Moved(s, i, Conclude(err))) else None
    case Conclude(err) =>
      if b != Proceed then None else
      Some(Moved(s, i, AwaitForceDone).(forceErr := err, forceDone := s.forceDone + 1, once := Completed))
    case _ => None
  }

  /** `ForceStop` */
  function CallerNext(s: State, i: nat, b: Branch): Option<State>
    requires i < |s.callers|
  {
    match s.callers[i]
    case Enter =>
      if b != Proceed then None
      else if s.once == Fresh then Some(Moved(s, i, CheckDone).(once := Held(i)))
      else if s.once == Completed then Some(Moved(s, i, AwaitForceDone))
      else None
    case AwaitForceDone =>
      if b == Proceed && s.forceDone > 0 then Some(Moved(s, i, Returned(s.forceErr))) else None
    case _ => BodyNext(s, i, b)
  }

  function Next(s: State, e: Event): Option<State> {
    match e
    case ChildExits(code) => if s.child.None? then Some(s.(child := Some(code))) else None
    case ReaperStep => ReaperNext(s)
    case ReceiveExit =>
      if s.published == [] then None
      else Some(s.(published := s.published[1..], received := s.received + [s.published[0]]))
    case StarterStep(b) => StarterNext(s, b)
    case Arrive => Some(s.(callers := s.callers + [Enter]))
    case CallerStep(i, b) => if i < |s.callers| then CallerNext(s, i, b) else None
  }

  /** The state after the events `es`, or None when some event was not possible. */
  function Exec(s: State, es: seq<Event>): Option<State>
    decreases |es|
  {
    if es == [] then Some(s)
    else match Next(s, es[0])
      case None => None
      case Some(t) => Exec(t, es[1..])
  }

  // ---------- The invariant ----------

  predicate InBody(pc: CallerPc) {
    pc.CheckDone? || pc.AskQuit? || pc.AwaitQuit? || pc.Kill? || pc.AwaitReap? || pc.Conclude?
  }

  predicate ReaperInv(s: State) {
    && (s.reaper != Waiting ==> s.child == Some(s.exit))
    && s.done == (if s.reaper == Waiting || s.reaper == Reaped then 0 else 1)
    && s.closed == (if s.reaper == ReaperFinished then 1 else 0)
    && s.received + s.published == (if s.reaper == Closing || s.reaper == ReaperFinished then [s.exit] else [])
  }

  predicate ClientInv(s: State) {
    && (s.done > 0 ==> s.qmp != Open)
    && (s.starter == Connecting || s.starter == Connected ==> s.qmp == Missing)
  }

  predicate CallerInv(s: State, i: nat)
    requires i < |s.callers|
  {
    var pc := s.callers[i];
    && (InBody(pc) <==> s.once == Held(i))
    && (pc.Conclude? ==> s.done == 1)
    && (pc.AwaitForceDone? || pc.Returned? ==> s.once == Completed)
    && (pc.Returned? ==> pc.err == s.forceErr)
    && (pc.CheckDone? || pc.AskQuit? || pc.AwaitQuit? || pc.Kill? ==> s.kills == 0)
    && (pc.AwaitReap? && pc.err.None? ==> s.killed)
    && ((pc.AwaitReap? || pc.Conclude?) && pc.err.Some? ==> s.kills == 1)
  }

  predicate ForceInv(s: State) {
    && s.kills <= 1
    && (s.once == Fresh ==> s.kills == 0)
    && (s.once.Held? ==> s.once.i < |s.callers|)
    && s.forceDone == (if s.once == Completed then 1 else 0)
    && (s.once == Completed ==> s.done == 1 && (s.forceErr.Some? ==> s.kills == 1))
  }

  ghost predicate Inv(s: State) {
    && ReaperInv(s) && ClientInv(s) && ForceInv(s)
    && (forall i :: 0 <= i < |s.callers| ==> CallerInv(s, i))
    && (s.starter.Undoing? ==> s.starter.i < |s.callers|)
    && (s.starter == StartFailed ==> s.done == 1)
  }

  lemma ReaperKeepsInv(s: State, t: State)
    requires Inv(s) && ReaperNext(s) == Some(t)
    ensures Inv(t)
  {
    forall i | 0 <= i < |t.callers| ensures CallerInv(t, i) {
      assert CallerInv(s, i);
    }
  }

  /** What a caller's invariant depends on, other than its own position, is unchanged. */
  predicate SameForce(s: State, t: State) {
    t.once == s.once && t.done == s.done && t.forceErr == s.forceErr && t.kills == s.kills && t.killed == s.killed
  }

  /** A failing Start becomes one more caller. */
  lemma UndoKeepsInv(s: State)
    requires Inv(s) && (s.starter == Connecting || s.starter == Connected || s.starter == Installed)
    ensures Inv(Undo(s))
  {
    var t := Undo(s);
    assert SameForce(s, t);
    forall i | 0 <= i < |t.callers| ensures CallerInv(t, i) {
      if i < |s.callers| { assert CallerInv(s, i); }
    }
  }

  /** Start goes on: it connects, installs the client or is done. */
  lemma StartKeepsInv(s: State, t: State)
    requires Inv(s) && t == s.(starter := t.starter, qmp := t.qmp) && ClientInv(t) && !t.starter.Undoing?
    requires t.starter == StartFailed ==> t.done == 1
    ensures Inv(t)
  {
    forall i | 0 <= i < |t.callers| ensures CallerInv(t, i) {
      assert CallerInv(s, i);
    }
  }

  lemma StarterKeepsInv(s: State, b: Branch, t: State)
    requires Inv(s) && StarterNext(s, b) == Some(t)
    ensures Inv(t)
  {
    if t.callers != s.callers {
      UndoKeepsInv(s);
    } else {
      if s.starter.Undoing? { assert CallerInv(s, s.starter.i); }
      StartKeepsInv(s, t);
    }
  }

  /** A step of a caller changes its own position and what the once guards. */
  predicate Touches(s: State, t: State) {
    t == s.(callers := t.callers, once := t.once, forceDone := t.forceDone, forceErr := t.forceErr,
            kills := t.kills, killed := t.killed)
  }

  /** The caller that runs the body has its invariant in the new state. */
  lemma BodyKeepsInv(s: State, i: nat, b: Branch, t: State)
    requires Inv(s) && i < |s.callers| && InBody(s.callers[i]) && !s.callers[i].Conclude?
    requires BodyNext(s, i, b) == Some(t)
    ensures |t.callers| == |s.callers| && CallerInv(t, i) && ForceInv(t) && Touches(s, t)
  {
    assert CallerInv(s, i);
    var pc := s.callers[i];
    if pc == CheckDone {
    } else if pc == AskQuit {
    } else if pc == AwaitQuit {
    } else if pc == Kill {
    } else {
    }
  }

  lemma ConcludeKeepsInv(s: State, i: nat, b: Branch, t: State)
    requires Inv(s) && i < |s.callers| && s.callers[i].Conclude? && BodyNext(s, i, b) == Some(t)
    ensures |t.callers| == |s.callers| && CallerInv(t, i) && ForceInv(t) && Touches(s, t)
  {
    assert CallerInv(s, i);
  }

  /** The caller that moves has its invariant in the new state. */
  lemma MoverKeepsInv(s: State, i: nat, b: Branch, t: State)
    requires Inv(s) && i < |s.callers| && CallerNext(s, i, b) == Some(t)
    ensures |t.callers| == |s.callers| && CallerInv(t, i) && ForceInv(t) && Touches(s, t)
  {
    var pc := s.callers[i];
    if pc == Enter || pc == AwaitForceDone {
      assert CallerInv(s, i);
    } else if pc.Conclude? {
      ConcludeKeepsInv(s, i, b, t);
    } else {
      BodyKeepsInv(s, i, b, t);
    }
  }

  /** The other callers keep theirs: the once and what it guards change only in the hands of its holder. */
  lemma OthersKeepInv(s: State, i: nat, b: Branch, t: State, k: nat)
    requires Inv(s) && i < |s.callers| && CallerNext(s, i, b) == Some(t) && k < |s.callers| && k != i
    ensures |t.callers| == |s.callers| && CallerInv(t, k)
  {
    assert CallerInv(s, i) && CallerInv(s, k);
    var pc := s.callers[i];
    if pc == Enter {
    } else if pc == CheckDone || pc == AskQuit {
    } else if pc == AwaitQuit || pc == Kill {
    } else if pc.AwaitReap? {
    } else if pc.Conclude? {
    }
  }

  lemma CallerKeepsInv(s: State, i: nat, b: Branch, t: State)
    requires Inv(s) && i < |s.callers| && CallerNext(s, i, b) == Some(t)
    ensures Inv(t)
  {
    MoverKeepsInv(s, i, b, t);
    forall k | 0 <= k < |t.callers| ensures CallerInv(t, k) {
      if k != i { OthersKeepInv(s, i, b, t, k); }
    }
  }

  lemma StepKeepsInv(s: State, e: Event, t: State)
    requires Inv(s) && Next(s, e) == Some(t)
    ensures Inv(t)
  {
    if e.ReaperStep? {
      ReaperKeepsInv(s, t);
    } else if e.StarterStep? {
      StarterKeepsInv(s, e.b, t);
    } else if e.CallerStep? {
      CallerKeepsInv(s, e.i, e.b, t);
    } else {
      if e.ReceiveExit? { assert t.received + t.published == s.received + s.published; }
      forall i | 0 <= i < |t.callers| ensures CallerInv(t, i) {
        if i < |s.callers| { assert CallerInv(s, i); }
      }
    }
  }

  lemma {:induction false} RunKeepsInv(s: State, es: seq<Event>)
    requires Inv(s) && Exec(s, es).Some?
    ensures Inv(Exec(s, es).value)
    decreases |es|
  {
    if es != [] {
      StepKeepsInv(s, es[0], Next(s, es[0]).value);
      RunKeepsInv(Next(s, es[0]).value, es[1..]);
    }
  }

  // ---------- What callers may rely on ----------

  /** The backend contract: in every run, a ForceStop call returns only after the child has been reaped. */
  lemma ForceStopMeansReaped(es: seq<Event>, i: nat)
    requires Exec(INITIAL, es).Some? && i < |Exec(INITIAL, es).value.callers|
    requires Exec(INITIAL, es).value.callers[i].Returned?
    ensures var s := Exec(INITIAL, es).value; s.child.Some? && s.done == 1 && s.reaper != Waiting
  {
    RunKeepsInv(INITIAL, es);
    assert CallerInv(Exec(INITIAL, es).value, i);
  }

  /** All ForceStop calls return the same error, and one other than nil only after a kill that failed. */
  lemma ForceStopCallsAgree(es: seq<Event>, i: nat, j: nat)
    requires Exec(INITIAL, es).Some? && i < |Exec(INITIAL, es).value.callers| && j < |Exec(INITIAL, es).value.callers|
    requires Exec(INITIAL, es).value.callers[i].Returned? && Exec(INITIAL, es).value.callers[j].Returned?
    ensures var s := Exec(INITIAL, es).value;
      s.callers[i].err == s.callers[j].err && (s.callers[i].err.Some? ==> s.kills == 1)
  {
    RunKeepsInv(INITIAL, es);
    assert CallerInv(Exec(INITIAL, es).value, i) && CallerInv(Exec(INITIAL, es).value, j);
  }

  /** The child is killed at most once, and no channel is closed twice, whoever races. */
  lemma ClosedOnce(es: seq<Event>)
    requires Exec(INITIAL, es).Some?
    ensures var s := Exec(INITIAL, es).value; s.kills <= 1 && s.done <= 1 && s.forceDone <= 1 && s.closed <= 1
  {
    RunKeepsInv(INITIAL, es);
  }

  /** `Wait`: the child's own exit, exactly once, before the channel is closed; nothing before it has exited. */
  lemma ExitPublishedOnce(es: seq<Event>)
    requires Exec(INITIAL, es).Some?
    ensures var s := Exec(INITIAL, es).value;
      && |s.received + s.published| <= 1
      && (s.closed == 1 ==> s.child.Some? && s.received + s.published == [s.child.value])
      && (s.received != [] ==> s.child.Some? && s.received == [s.child.value] && s.done == 1)
  {
    RunKeepsInv(INITIAL, es);
    var s := Exec(INITIAL, es).value;
    if s.received != [] { assert (s.received + s.published)[0] == s.received[0]; }
  }

  /** The QMP client of a reaped child is closed, by the reaper or by Start, whichever came second. */
  lemma NoClientOutlivesChild(es: seq<Event>)
    requires Exec(INITIAL, es).Some?
    ensures var s := Exec(INITIAL, es).value; s.done == 1 && s.starter != Connected ==> s.qmp != Open
  {
    RunKeepsInv(INITIAL, es);
  }

  /** A Start that fails after the fork returns only after its child has been reaped. */
  lemma FailedStartLeavesNoChild(es: seq<Event>)
    requires Exec(INITIAL, es).Some? && Exec(INITIAL, es).value.starter == StartFailed
    ensures Exec(INITIAL, es).value.child.Some? && Exec(INITIAL, es).value.done == 1
  {
    RunKeepsInv(INITIAL, es);
  }

  // ---------- Progress ----------

  /** Steps the process itself takes; a delivered SIGKILL makes the child exit. */
  predicate Progresses(s: State, e: Event) {
    Next(s, e).Some? && e != Arrive && !e.ReceiveExit? && (e.ChildExits? ==> s.killed)
  }

  predicate Pending(s: State) {
    s.starter.Undoing? || exists i :: 0 <= i < |s.callers| && !s.callers[i].Returned?
  }

  /** The body is waiting for a child that neither the kill nor anything else has ended. */
  predicate KillFailed(s: State) {
    && s.child.None? && !s.killed && s.kills == 1
    && s.once.Held? && s.once.i < |s.callers| && s.callers[s.once.i].AwaitReap?
  }

  /** The body of ForceStop never gets stuck, except on a child that a failed kill has left alive. */
  lemma BodyProgresses(s: State) returns (e: Event)
    requires Inv(s) && s.once.Held? && !KillFailed(s)
    ensures Progresses(s, e)
  {
    var i := s.once.i;
    assert CallerInv(s, i);
    var pc := s.callers[i];
    if pc.AskQuit? {
      e := CallerStep(i, Fails);
    } else if pc.AwaitQuit? {
      e := CallerStep(i, TimerFires);
    } else if pc.AwaitReap? && s.done == 0 {
      e := if s.child.None? then ChildExits(137) else ReaperStep;
    } else {
      e := CallerStep(i, Proceed);
    }
  }

  /** A caller outside the body can move once the body has completed, or takes the once itself. */
  lemma CallerProgresses(s: State, i: nat)
    requires Inv(s) && !s.once.Held? && i < |s.callers| && !s.callers[i].Returned?
    ensures Progresses(s, CallerStep(i, Proceed))
  {
    assert CallerInv(s, i);
  }

  /** As long as a ForceStop call or a failing Start has not returned, some step is possible. */
  lemma NeverStuck(s: State) returns (e: Event)
    requires Inv(s) && Pending(s) && !KillFailed(s)
    ensures Progresses(s, e)
  {
    if s.once.Held? {
      e := BodyProgresses(s);
    } else if exists i :: 0 <= i < |s.callers| && !s.callers[i].Returned? {
      var i :| 0 <= i < |s.callers| && !s.callers[i].Returned?;
      CallerProgresses(s, i);
      e := CallerStep(i, Proceed);
    } else {
      e := StarterStep(Proceed);
    }
  }

  function CallerRank(pc: CallerPc): nat {
    match pc
    case Enter => 9
    case CheckDone => 8
    case AskQuit => 7
    case AwaitQuit => 6
    case Kill => 5
    case AwaitReap(_) => 4
    case Conclude(_) => 3
    case AwaitForceDone => 2
    case Returned(_) => 0
  }

  function CallersRank(callers: seq<CallerPc>): nat {
    if callers == [] then 0 else CallerRank(callers[0]) + CallersRank(callers[1..])
  }

  function ReaperRank(pc: ReaperPc): nat {
    match pc
    case Waiting => 4
    case Reaped => 3
    case Publishing => 2
    case Closing => 1
    case ReaperFinished => 0
  }

  /** Undoing a failed Start adds a caller, so each earlier point of Start outranks one. */
  function StarterRank(pc: StarterPc): nat {
    match pc
    case Connecting => 13
    case Connected => 12
    case Installed => 11
    case Undoing(_) => 1
    case Started => 0
    case StartFailed => 0
  }

  function Measure(s: State): nat {
    CallersRank(s.callers) + ReaperRank(s.reaper) + StarterRank(s.starter) + if s.child.None? then 1 else 0
  }

  lemma {:induction false} RankMoves(callers: seq<CallerPc>, i: nat, pc: CallerPc)
    requires i < |callers|
    ensures CallersRank(callers[i := pc]) == CallersRank(callers) - CallerRank(callers[i]) + CallerRank(pc)
    decreases i
  {
    if i == 0 {
      assert callers[i := pc][1..] == callers[1..];
    } else {
      assert callers[i := pc][1..] == callers[1..][i - 1 := pc];
      RankMoves(callers[1..], i - 1, pc);
    }
  }

  lemma {:induction false} RankOfArrival(callers: seq<CallerPc>)
    ensures CallersRank(callers + [Enter]) == CallersRank(callers) + 9
    decreases |callers|
  {
    if callers == [] {
      assert [Enter][1..] == [];
    } else {
      assert (callers + [Enter])[1..] == callers[1..] + [Enter];
      RankOfArrival(callers[1..]);
    }
  }

  /** A caller moves to a point of lower rank and changes nothing else that is measured. */
  lemma CallerDescends(s: State, i: nat, b: Branch, t: State)
    requires i < |s.callers| && CallerNext(s, i, b) == Some(t)
    ensures |t.callers| == |s.callers| && t.callers == s.callers[i := t.callers[i]]
    ensures CallerRank(t.callers[i]) < CallerRank(s.callers[i])
    ensures t.reaper == s.reaper && t.starter == s.starter && t.child == s.child
  {
    var pc := s.callers[i];
    if pc == Enter {
    } else if pc == CheckDone || pc == AskQuit {
    } else if pc == AwaitQuit || pc == Kill {
    } else if pc.AwaitReap? {
    } else if pc.Conclude? {
    }
  }

  lemma StarterDescends(s: State, b: Branch, t: State)
    requires StarterNext(s, b) == Some(t)
    ensures Measure(t) < Measure(s)
  {
    if t.callers != s.callers {
      RankOfArrival(s.callers);
    }
  }

  /** Every step but an arrival and the receipt of the exit makes the measure smaller, so all waits end. */
  lemma StepDecreases(s: State, e: Event, t: State)
    requires Next(s, e) == Some(t) && e != Arrive && !e.ReceiveExit?
    ensures Measure(t) < Measure(s)
  {
    if e.CallerStep? {
      CallerDescends(s, e.i, e.b, t);
      RankMoves(s.callers, e.i, t.callers[e.i]);
    } else if e.StarterStep? {
      StarterDescends(s, e.b, t);
    } else if e.ReaperStep? {
    } else {
    }
  }

  predicate Rested(s: State) {
    !Pending(s) || KillFailed(s)
  }

  /** A step in front of a run. */
  lemma ExecAfter(s: State, e: Event, rest: seq<Event>)
    requires Next(s, e).Some?
    ensures Exec(s, [e] + rest) == Exec(Next(s, e).value, rest)
  {
    assert ([e] + rest)[1..] == rest;
  }

  /** From every reachable state the process alone can finish: each wait ends, unless a failed kill spared the child. */
  lemma {:induction false} AllWaitsEnd(s: State) returns (es: seq<Event>)
    requires Inv(s)
    ensures Exec(s, es).Some? && Rested(Exec(s, es).value)
    ensures |es| <= Measure(s) && Arrive !in es
    decreases Measure(s)
  {
    if Rested(s) {
      es := [];
    } else {
      var e := NeverStuck(s);
      var t := Next(s, e).value;
      StepKeepsInv(s, e, t);
      StepDecreases(s, e, t);
      var rest := AllWaitsEnd(t);
      ExecAfter(s, e, rest);
      es := [e] + rest;
    }
  }
}
