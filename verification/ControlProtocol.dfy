/**
  The control socket of a supervised run: the server with its connection handlers and its shutdown
  (internal/supervisor/control_server.go) on top of the supervisor and its stop protocol.  A handler's
  stop or status request is a call of that protocol; its milestones and its result are what the
  handler writes.  Requests and responses are decoded frames.
 */
module ControlProtocol {
  import opened Model
  import opened Wrappers
  import P = StopProtocol
  import S = SuperviseProtocol
  import StopReports
  import StopLiveness

  datatype Command = Stop(force: bool) | Status

  /** A response is a stop milestone, a success or a failure; the last two are terminal. */
  datatype Body = Progress(stage: P.Stage) | Success(status: Option<RunState>) | Failure(code: ErrorCode)

  datatype Frame = Frame(id: Id, body: Body)

  /** What a handler makes of its peer and of the first line: the checks in their order. */
  datatype Request = Stranger | Malformed | WrongId | Good(cmd: Command)

  /** Where the handler of a connection is; its deferred calls close the connection and untrack it. */
  datatype HandlerPc =
    | Reading | Decoded(cmd: Command) | Calling(cmd: Command, call: nat) | Reporting(body: Body)
    | Closing | Untracking | Left

  /**
    One tracked connection.  `call` is its call of the run and `reported` the milestones of that call
    passed on so far, `told` those written, `missed` when one was not.  `kept` when the connection was marked
    as a stop connection while open, `lost` when its terminal frame was not written, `failed` when a
    write to it failed while it was open.
   */
  datatype Conn = Conn(
    pc: HandlerPc, cmd: Option<Command>, call: Option<nat>, reported: seq<P.Stage>, told: seq<P.Stage>,
    marked: bool, open: bool, kept: bool, missed: bool, lost: bool, failed: bool, written: seq<Frame>)

  /** `controlServer.stop`: cancel, close the listener, await the loop, sweep, await the handlers. */
  datatype ServerPc = NotStarted | Serving | Cancelled | ListenerClosed | LoopDone | Swept | ServerDone

  datatype State = Service(id: Id, sup: S.State, server: ServerPc, conns: seq<Conn>)

  const NEW := Conn(Reading, None, None, [], [], false, true, false, false, false, false, [])

  function Initial(id: Id, st: RunState): State
    requires st == Running || st == Paused
  {
    Service(id, S.Initial(st), NotStarted, [])
  }

  datatype Event =
    | World(e: S.Event)
    | Accept
    | ServerStep
    | Receive(i: nat, request: Request)
    | Dispatch(i: nat)
    | Report(i: nat, delivered: bool)
    | CallReturns(i: nat)
    | Send(i: nat, delivered: bool)
    | Leave(i: nat)

  // ---------- Steps ----------

  function EntryOf(cmd: Command): P.CallPc {
    match cmd
    case Stop(force) => if force then P.EnterForce else P.EnterGraceful
    case Status => P.EnterStatus
  }

  /** The response to a request that is not dispatched. */
  function Refusal(request: Request): Body
    requires !request.Good?
  {
    Failure(if request == Stranger then Unauthorized else InvalidRequest)
  }

  /** The response to a call that has returned. */
  function Answer(pc: P.CallPc): Option<Body> {
    match pc
    case Returned(r) =>
      Some(if r == P.Nil then Success(None)
           else if r == P.TimedOut then Failure(ShutdownTimeout) else Failure(Internal))
    case StatusReturned(st) => Some(Success(Some(st)))
    case StatusFailed => Some(Failure(Internal))
    case _ => None
  }

  /** The next milestone of the call of `c` that its handler has not passed on. */
  function Unreported(run: P.State, c: Conn): seq<P.Stage> {
    if c.pc.Calling? && c.pc.call < |run.infos| && |c.reported| <= |run.infos[c.pc.call].heard|
    then run.infos[c.pc.call].heard[|c.reported|..] else []
  }

  /** One step of the handler of `c`; None when the event is not possible. */
  function HandlerNext(id: Id, run: P.State, c: Conn, e: Event): Option<Conn> {
    match e
    case Receive(_, request) =>
      if c.pc != Reading then None
      else if request.Good? then
        // A closed connection cannot be read any more.
        if c.open then Some(c.(pc := Decoded(request.cmd), cmd := Some(request.cmd))) else None
      else Some(c.(pc := Reporting(Refusal(request))))
    case Dispatch(_) =>
      if !c.pc.Decoded? then None
      else
        var d := c.(pc := Calling(c.pc.cmd, |run.calls|), call := Some(|run.calls|));
        Some(if c.pc.cmd.Stop? then d.(marked := true, kept := c.open) else d)
    case Report(_, delivered) =>
      if Unreported(run, c) == [] then None
      else
        var stage := Unreported(run, c)[0];
        var d := c.(reported := c.reported + [stage]);
        Some(if c.open && delivered then
               d.(written := c.written + [Frame(id, Progress(stage))], told := c.told + [stage])
             else d.(missed := true, failed := c.failed || c.open))
    case CallReturns(_) =>
      if !c.pc.Calling? || c.pc.call >= |run.calls| || Unreported(run, c) != [] then None
      else if Answer(run.calls[c.pc.call]).None? then None
      else Some(c.(pc := Reporting(Answer(run.calls[c.pc.call]).value)))
    case Send(_, delivered) =>
      if !c.pc.Reporting? then None
      else if c.open && delivered then Some(c.(pc := Closing, written := c.written + [Frame(id, c.pc.body)]))
      else Some(c.(pc := Closing, lost := true, failed := c.failed || c.open))
    case Leave(_) =>
      if c.pc == Closing then Some(c.(pc := Untracking, open := false))
      else if c.pc == Untracking then Some(c.(pc := Left)) else None
    case _ => None
  }

  /** The sweep closes every tracked connection that is not marked as a stop connection. */
  function Sweep(c: Conn): Conn {
    if c.pc != Left && !c.marked then c.(open := false) else c
  }

  predicate AllLeft(conns: seq<Conn>) {
    forall i :: 0 <= i < |conns| ==> conns[i].pc == Left
  }

  /** The goroutines of the server and `controlServer.stop`, which the supervisor calls. */
  function ServerNext(s: State): Option<State> {
    match s.server
    case Serving => if s.sup.pc == S.StoppingServer then Some(s.(server := Cancelled)) else None
    case Cancelled => Some(s.(server := ListenerClosed))
    case ListenerClosed => Some(s.(server := LoopDone))
    case LoopDone =>
      Some(s.(server := Swept, conns := seq(|s.conns|, i requires 0 <= i < |s.conns| => Sweep(s.conns[i]))))
    case Swept => if AllLeft(s.conns) then Some(s.(server := ServerDone)) else None
    case _ => None
  }

  /** A step of the run or of the supervisor, which starts the server and waits for its end. */
  function WorldNext(s: State, e: S.Event): Option<State> {
    if S.IsArrival(e) || (e.Supervisor? && s.sup.pc == S.StoppingServer && s.server != ServerDone) then None
    else match S.Next(s.sup, e)
      case None => None
      case Some(sup) =>
        Some(s.(sup := sup, server := if s.sup.pc == S.StartingUp && sup.pc == S.Waiting then Serving else s.server))
  }

  function Target(e: Event): Option<nat> {
    match e
    case Receive(i, _) => Some(i)
    case Dispatch(i) => Some(i)
    case Report(i, _) => Some(i)
    case CallReturns(i) => Some(i)
    case Send(i, _) => Some(i)
    case Leave(i) => Some(i)
    case _ => None
  }

  /** The run after a handler's step: a dispatched request is a new call, under a background context. */
  function Dispatched(sup: S.State, c: Conn, e: Event): S.State {
    if e.Dispatch? && c.pc.Decoded? then sup.(run := P.Arrived(sup.run, EntryOf(c.pc.cmd), true)) else sup
  }

  function HandlerStep(s: State, i: nat, e: Event): Option<State>
    requires i < |s.conns|
  {
    match HandlerNext(s.id, s.sup.run, s.conns[i], e)
    case None => None
    case Some(c) => Some(s.(conns := s.conns[i := c], sup := Dispatched(s.sup, s.conns[i], e)))
  }

  /** A connection may have been accepted before the listener was closed and be tracked after. */
  predicate Accepting(server: ServerPc) {
    server == Serving || server == Cancelled || server == ListenerClosed
  }

  function Next(s: State, e: Event): Option<State> {
    if e.World? then WorldNext(s, e.e)
    else if e == Accept then (if Accepting(s.server) then Some(s.(conns := s.conns + [NEW])) else None)
    else if e == ServerStep then ServerNext(s)
    else if Target(e).value < |s.conns| then HandlerStep(s, Target(e).value, e)
    else None
  }

  function Exec(s: State, es: seq<Event>): Option<State>
    decreases |es|
  {
    if es == [] then Some(s)
    else match Next(s, es[0])
      case None => None
      case Some(t) => Exec(t, es[1..])
  }

  // ---------- The invariant ----------

  predicate Gone(c: Conn) {
    c.pc == Closing || c.pc == Untracking || c.pc == Left
  }

  /** The call of connection `c` is the one that its request asked for. */
  predicate OwnCall(run: P.State, c: Conn) {
    match c.call
    case None => c.reported == []
    case Some(j) =>
      && c.cmd.Some? && S.Owns(run, j, EntryOf(c.cmd.value)) && c.reported <= run.infos[j].heard
      && (!c.pc.Calling? ==> Answer(run.calls[j]).Some? && c.reported == run.infos[j].heard)
  }

  /** The terminal body of `c` is a refusal, or the answer of its call. */
  predicate Truthful(run: P.State, c: Conn, body: Body) {
    match c.call
    case None => body == Failure(Unauthorized) || body == Failure(InvalidRequest)
    case Some(j) => j < |run.calls| && Answer(run.calls[j]) == Some(body)
  }

  /** Where a handler is and what it knows. */
  predicate HandlerInv(s: State, c: Conn) {
    && (c.pc == Reading ==> c.cmd.None?)
    && (c.pc.Decoded? ==> c.cmd == Some(c.pc.cmd))
    && (c.pc == Reading || c.pc.Decoded? ==> c.call.None? && !c.marked && !c.missed)
    && (c.pc.Calling? ==> c.cmd == Some(c.pc.cmd) && c.call == Some(c.pc.call))
    && (c.pc.Reporting? ==> Truthful(s.sup.run, c, c.pc.body))
    && (c.marked ==> c.cmd.Some? && c.cmd.value.Stop? && c.call.Some?)
    && (c.kept ==> c.marked && (c.pc.Calling? || c.pc.Reporting? ==> c.open) && (c.missed || c.lost ==> c.failed))
    && (c.lost ==> Gone(c))
    && ((s.server == Swept || s.server == ServerDone) && (c.pc == Reading || c.pc.Decoded?) ==> !c.open)
    && (s.server == ServerDone ==> c.pc == Left)
  }

  /** The milestone frames of `stages`. */
  function Frames(id: Id, stages: seq<P.Stage>): seq<Frame> {
    seq(|stages|, k requires 0 <= k < |stages| => Frame(id, Progress(stages[k])))
  }

  /** The stages of `part` are some of `all`, in order. */
  predicate Among(part: seq<P.Stage>, all: seq<P.Stage>) {
    part == all || part == [] || (|all| == 2 && (part == [all[0]] || part == [all[1]]))
  }

  /** The frames before the terminal one. */
  function Sofar(c: Conn): seq<Frame> {
    if Gone(c) && !c.lost && c.written != [] then c.written[..|c.written| - 1] else c.written
  }

  /** What has been written: milestones of the call, all of them if none was missed, then the answer. */
  predicate FramesInv(s: State, c: Conn) {
    && Sofar(c) == Frames(s.id, c.told) && Among(c.told, c.reported) && (!c.missed ==> c.told == c.reported)
    && (Gone(c) && !c.lost ==> c.written != [] && c.written[|c.written| - 1].id == s.id
                               && Truthful(s.sup.run, c, c.written[|c.written| - 1].body))
  }

  predicate ConnInv(s: State, c: Conn) {
    OwnCall(s.sup.run, c) && HandlerInv(s, c) && FramesInv(s, c)
  }

  /** How far the server and the supervisor are. */
  predicate ServerInv(s: State) {
    && (s.server == NotStarted ==> s.conns == [])
    && (s.server == NotStarted <== s.sup.pc == S.StartingUp)
    && (s.sup.pc == S.Waiting || s.sup.pc.InStop? || s.sup.pc.InForce? || s.sup.pc == S.ReceiveExit
        ==> s.server == Serving)
    && (s.sup.pc == S.StoppingServer ==> s.server != NotStarted)
    && (s.sup.pc.InDeferred? ==> s.server == NotStarted)
    && (s.sup.pc.InCompleted? ==> s.server == ServerDone)
    && (s.sup.pc == S.Releasing ==> s.server == NotStarted || s.server == ServerDone)
  }

  ghost predicate Inv(s: State) {
    && S.Inv(s.sup) && ServerInv(s)
    && (forall i :: 0 <= i < |s.conns| ==> ConnInv(s, s.conns[i]))
  }

  // ---------- The invariant is kept ----------

  /** Steps of others leave what a connection says of its call true. */
  lemma RunKeepsConn(s: State, t: State, c: Conn)
    requires P.Inv(s.sup.run) && P.Inv(t.sup.run) && P.Extends(s.sup.run, t.sup.run)
    requires ConnInv(s, c) && t.id == s.id && (t.server == s.server || t.server == Serving)
    ensures ConnInv(t, c)
  {
    if c.call.Some? {
      var j := c.call.value;
      assert P.InfoExtends(s.sup.run, t.sup.run, j);
      if Answer(s.sup.run.calls[j]).Some? {
        assert P.CallFinished(s.sup.run.calls[j]);
        assert t.sup.run.calls[j] == s.sup.run.calls[j];
      }
    }
  }

  lemma WorldKeepsInv(s: State, e: S.Event)
    requires Inv(s) && WorldNext(s, e).Some?
    ensures Inv(WorldNext(s, e).value)
  {
    var t := WorldNext(s, e).value;
    S.StepKeepsInv(s.sup, e);
    S.StepExtends(s.sup, e);
    assert ServerInv(t) by { WorldKeepsServer(s, e); }
    forall i | 0 <= i < |t.conns| ensures ConnInv(t, t.conns[i]) {
      assert ConnInv(s, s.conns[i]);
      RunKeepsConn(s, t, s.conns[i]);
    }
  }

  lemma WorldKeepsServer(s: State, e: S.Event)
    requires Inv(s) && WorldNext(s, e).Some?
    ensures ServerInv(WorldNext(s, e).value)
  {
  }

  lemma ReceiveMoves(s: State, c: Conn, e: Event, d: Conn)
    requires S.Inv(s.sup) && OwnCall(s.sup.run, c) && HandlerInv(s, c)
    requires e.Receive? && HandlerNext(s.id, s.sup.run, c, e) == Some(d)
    ensures OwnCall(s.sup.run, d) && HandlerInv(s, d)
  {
  }

  lemma ReportMoves(s: State, c: Conn, e: Event, d: Conn)
    requires S.Inv(s.sup) && OwnCall(s.sup.run, c) && HandlerInv(s, c)
    requires e.Report? && HandlerNext(s.id, s.sup.run, c, e) == Some(d)
    ensures OwnCall(s.sup.run, d) && HandlerInv(s, d)
  {
  }

  lemma ReturnMoves(s: State, c: Conn, e: Event, d: Conn)
    requires S.Inv(s.sup) && OwnCall(s.sup.run, c) && HandlerInv(s, c)
    requires e.CallReturns? && HandlerNext(s.id, s.sup.run, c, e) == Some(d)
    ensures OwnCall(s.sup.run, d) && HandlerInv(s, d)
  {
  }

  lemma SendMoves(s: State, c: Conn, e: Event, d: Conn)
    requires S.Inv(s.sup) && OwnCall(s.sup.run, c) && HandlerInv(s, c)
    requires e.Send? && HandlerNext(s.id, s.sup.run, c, e) == Some(d)
    ensures OwnCall(s.sup.run, d) && HandlerInv(s, d)
  {
  }

  lemma LeaveMoves(s: State, c: Conn, e: Event, d: Conn)
    requires S.Inv(s.sup) && OwnCall(s.sup.run, c) && HandlerInv(s, c)
    requires e.Leave? && HandlerNext(s.id, s.sup.run, c, e) == Some(d)
    ensures OwnCall(s.sup.run, d) && HandlerInv(s, d)
  {
    if c.pc == Closing {
      assert d == c.(pc := Untracking, open := false);
    } else {
      assert d == c.(pc := Left);
    }
  }

  /** A handler's own step keeps where it is and what it knows of its call. */
  lemma HandlerMoves(s: State, c: Conn, e: Event, d: Conn)
    requires S.Inv(s.sup) && OwnCall(s.sup.run, c) && HandlerInv(s, c)
    requires !e.Dispatch? && HandlerNext(s.id, s.sup.run, c, e) == Some(d)
    ensures OwnCall(s.sup.run, d) && HandlerInv(s, d)
  {
    if e.Receive? {
      ReceiveMoves(s, c, e, d);
    } else if e.Report? {
      ReportMoves(s, c, e, d);
    } else if e.CallReturns? {
      ReturnMoves(s, c, e, d);
    } else if e.Send? {
      SendMoves(s, c, e, d);
    } else {
      LeaveMoves(s, c, e, d);
    }
  }

  lemma FramesAppend(id: Id, stages: seq<P.Stage>, stage: P.Stage)
    ensures Frames(id, stages) + [Frame(id, Progress(stage))] == Frames(id, stages + [stage])
  {
  }

  /** A milestone more, written or not: there are never more than two. */
  lemma AmongGrows(part: seq<P.Stage>, all: seq<P.Stage>, stage: P.Stage)
    requires Among(part, all) && |all| <= 1
    ensures Among(part + [stage], all + [stage]) && Among(part, all + [stage])
  {
  }

  /** A call that has something left to pass on has passed on at most one milestone. */
  lemma FewReported(s: State, c: Conn)
    requires S.Inv(s.sup) && OwnCall(s.sup.run, c) && c.pc.Calling? && c.call == Some(c.pc.call)
    requires Unreported(s.sup.run, c) != []
    ensures |c.reported| <= 1
  {
    assert StopReports.InfoInv(s.sup.run, c.pc.call);
    assert StopReports.Milestones(s.sup.run.infos[c.pc.call].heard);
  }

  lemma ReportKeepsFrames(s: State, c: Conn, e: Event, d: Conn)
    requires FramesInv(s, c) && |c.reported| <= 1 && !Gone(c)
    requires e.Report? && HandlerNext(s.id, s.sup.run, c, e) == Some(d)
    ensures FramesInv(s, d)
  {
    var stage := Unreported(s.sup.run, c)[0];
    AmongGrows(c.told, c.reported, stage);
    FramesAppend(s.id, c.told, stage);
    assert Sofar(d) == d.written && Sofar(c) == c.written;
  }

  lemma SendKeepsFrames(s: State, c: Conn, e: Event, d: Conn)
    requires ConnInv(s, c) && e.Send? && HandlerNext(s.id, s.sup.run, c, e) == Some(d)
    ensures FramesInv(s, d)
  {
    assert Sofar(c) == c.written;
    if d.lost {
      assert Sofar(d) == c.written;
    } else {
      assert d.written[..|d.written| - 1] == c.written;
    }
  }

  /** What the frames of a connection depend on. */
  lemma SameFrames(s: State, c: Conn, d: Conn)
    requires FramesInv(s, c) && d.written == c.written && d.told == c.told && d.reported == c.reported
    requires d.call == c.call && d.missed == c.missed && d.lost == c.lost && Gone(d) == Gone(c)
    ensures FramesInv(s, d)
  {
    assert Sofar(d) == Sofar(c);
  }

  /** A step that neither reports nor sends changes where the handler is, what it was asked, or closes. */
  predicate Untouched(c: Conn, d: Conn) {
    d == c.(pc := d.pc, cmd := d.cmd, open := d.open) && Gone(d) == Gone(c)
  }

  lemma ReceiveTouchesNoFrame(id: Id, run: P.State, c: Conn, e: Event, d: Conn)
    requires e.Receive? && HandlerNext(id, run, c, e) == Some(d)
    ensures Untouched(c, d)
  {
    if e.request.Good? {
      assert d == c.(pc := Decoded(e.request.cmd), cmd := Some(e.request.cmd));
    } else {
      assert d == c.(pc := Reporting(Refusal(e.request)));
    }
  }

  lemma ReturnTouchesNoFrame(id: Id, run: P.State, c: Conn, e: Event, d: Conn)
    requires e.CallReturns? && HandlerNext(id, run, c, e) == Some(d)
    ensures Untouched(c, d)
  {
    assert d == c.(pc := Reporting(Answer(run.calls[c.pc.call]).value));
  }

  lemma LeaveTouchesNoFrame(id: Id, run: P.State, c: Conn, e: Event, d: Conn)
    requires e.Leave? && HandlerNext(id, run, c, e) == Some(d)
    ensures Untouched(c, d)
  {
    if c.pc == Closing {
      assert d == c.(pc := Untracking, open := false);
    } else {
      assert d == c.(pc := Left);
    }
  }

  lemma OthersKeepFrames(s: State, c: Conn, e: Event, d: Conn)
    requires FramesInv(s, c) && !e.Send? && !e.Report? && !e.Dispatch? && HandlerNext(s.id, s.sup.run, c, e) == Some(d)
    ensures FramesInv(s, d)
  {
    if e.Receive? {
      ReceiveTouchesNoFrame(s.id, s.sup.run, c, e, d);
    } else if e.CallReturns? {
      ReturnTouchesNoFrame(s.id, s.sup.run, c, e, d);
    } else {
      LeaveTouchesNoFrame(s.id, s.sup.run, c, e, d);
    }
    SameFrames(s, c, d);
  }

  /** A dispatched request is a new call of the run. */
  lemma DispatchKeepsConn(s: State, i: nat, t: State)
    requires Inv(s) && i < |s.conns| && HandlerStep(s, i, Dispatch(i)) == Some(t)
    ensures S.Inv(t.sup) && P.Extends(s.sup.run, t.sup.run) && |t.conns| == |s.conns| && ConnInv(t, t.conns[i])
  {
    var c := s.conns[i];
    assert ConnInv(s, c);
    S.EntryExtends(s.sup, EntryOf(c.pc.cmd));
    assert Sofar(t.conns[i]) == Sofar(c);
  }

  lemma DispatchKeepsInv(s: State, i: nat)
    requires Inv(s) && i < |s.conns| && HandlerStep(s, i, Dispatch(i)).Some?
    ensures Inv(HandlerStep(s, i, Dispatch(i)).value)
  {
    var t := HandlerStep(s, i, Dispatch(i)).value;
    DispatchKeepsConn(s, i, t);
    forall k | 0 <= k < |t.conns| ensures ConnInv(t, t.conns[k]) {
      if k != i {
        assert ConnInv(s, s.conns[k]);
        RunKeepsConn(s, t, s.conns[k]);
      }
    }
  }

  lemma SameWorld(s: State, t: State, c: Conn)
    requires ConnInv(s, c) && t.sup == s.sup && t.server == s.server && t.id == s.id
    ensures ConnInv(t, c)
  {
  }

  lemma HandlerKeepsConn(s: State, c: Conn, e: Event, d: Conn)
    requires S.Inv(s.sup) && ConnInv(s, c) && !e.Dispatch? && HandlerNext(s.id, s.sup.run, c, e) == Some(d)
    ensures ConnInv(s, d)
  {
    HandlerMoves(s, c, e, d);
    if e.Report? {
      FewReported(s, c);
      ReportKeepsFrames(s, c, e, d);
    } else if e.Send? {
      SendKeepsFrames(s, c, e, d);
    } else {
      OthersKeepFrames(s, c, e, d);
    }
  }

  /** Every step of a connection handler keeps the invariant. */
  lemma HandlerKeepsInv(s: State, i: nat, e: Event)
    requires Inv(s) && i < |s.conns| && HandlerStep(s, i, e).Some?
    requires e.Dispatch? ==> e.i == i
    ensures Inv(HandlerStep(s, i, e).value)
  {
    if e.Dispatch? {
      DispatchKeepsInv(s, i);
    } else {
      var c, t := s.conns[i], HandlerStep(s, i, e).value;
      assert ConnInv(s, c);
      HandlerKeepsConn(s, c, e, t.conns[i]);
      forall k | 0 <= k < |t.conns| ensures ConnInv(t, t.conns[k]) {
        if k != i { assert ConnInv(s, s.conns[k]); }
        SameWorld(s, t, t.conns[k]);
      }
    }
  }

  lemma ServerKeepsConn(s: State, t: State, i: nat)
    requires Inv(s) && ServerNext(s) == Some(t) && i < |s.conns|
    ensures |t.conns| == |s.conns| && ConnInv(t, t.conns[i])
  {
    var c := s.conns[i];
    assert ConnInv(s, c);
    assert t.conns[i] == c || t.conns[i] == Sweep(c);
    assert Sofar(t.conns[i]) == Sofar(c);
  }

  lemma ServerKeepsInv(s: State)
    requires Inv(s) && ServerNext(s).Some?
    ensures Inv(ServerNext(s).value)
  {
    var t := ServerNext(s).value;
    forall i | 0 <= i < |t.conns| ensures ConnInv(t, t.conns[i]) {
      ServerKeepsConn(s, t, i);
    }
  }

  lemma AcceptKeepsInv(s: State)
    requires Inv(s) && Accepting(s.server)
    ensures Inv(s.(conns := s.conns + [NEW]))
  {
    var t := s.(conns := s.conns + [NEW]);
    forall i | 0 <= i < |t.conns| ensures ConnInv(t, t.conns[i]) {
      if i < |s.conns| {
        assert ConnInv(s, s.conns[i]);
        SameWorld(s, t, s.conns[i]);
      }
    }
  }

  /** Inductive invariant of the run, its supervisor, the server and any number of connections. */
  lemma StepKeepsInv(s: State, e: Event)
    requires Inv(s) && Next(s, e).Some?
    ensures Inv(Next(s, e).value)
  {
    if e.World? {
      WorldKeepsInv(s, e.e);
    } else if e == Accept {
      AcceptKeepsInv(s);
    } else if e == ServerStep {
      ServerKeepsInv(s);
    } else {
      HandlerKeepsInv(s, Target(e).value, e);
    }
  }

  /** The service keeps its VM, and a child that has exited stays so. */
  lemma StepExtends(s: State, e: Event)
    requires Inv(s) && Next(s, e).Some?
    ensures Next(s, e).value.id == s.id
    ensures s.sup.run.childExited ==> Next(s, e).value.sup.run.childExited
  {
    if e.World? {
      S.StepExtends(s.sup, e.e);
    } else if e.Dispatch? {
      assert ConnInv(s, s.conns[e.i]);
      S.EntryExtends(s.sup, EntryOf(s.conns[e.i].pc.cmd));
    }
  }

  lemma {:induction false} RunKeepsInv(s: State, es: seq<Event>)
    requires Inv(s) && Exec(s, es).Some?
    ensures Inv(Exec(s, es).value)
    decreases |es|
  {
    if es != [] {
      StepKeepsInv(s, es[0]);
      RunKeepsInv(Next(s, es[0]).value, es[1..]);
    }
  }

  ghost predicate Reachable(t: State) {
    exists id, st, es :: (st == Running || st == Paused) && Exec(Initial(id, st), es) == Some(t)
  }

  lemma ReachableInv(t: State)
    requires Reachable(t)
    ensures Inv(t)
  {
    var id, st, es :| (st == Running || st == Paused) && Exec(Initial(id, st), es) == Some(t);
    S.InitialInv(st);
    RunKeepsInv(Initial(id, st), es);
  }

  // ---------- What the server sends ----------

  /** The connection of a stop request. */
  predicate IsStop(c: Conn) {
    c.cmd.Some? && c.cmd.value.Stop?
  }

  /** Acknowledged at most once, then forcing at most once. */
  predicate MilestoneFrames(fs: seq<Frame>) {
    && |fs| <= 2 && (forall k :: 0 <= k < |fs| ==> fs[k].body.Progress?)
    && (|fs| == 2 ==> fs[0].body == Progress(P.Acknowledged) && fs[1].body == Progress(P.Forcing))
  }

  /** Milestones of a stop, in order, then at most one terminal frame, which is never "not running". */
  predicate WellFramed(fs: seq<Frame>, cmd: Option<Command>) {
    fs == [] ||
    (var n := if fs[|fs| - 1].body.Progress? then |fs| else |fs| - 1;
     && MilestoneFrames(fs[..n]) && fs[|fs| - 1].body != Failure(NotRunning)
     && (n > 0 ==> cmd == Some(Stop(true)) || cmd == Some(Stop(false)))
     && (cmd == Some(Stop(true)) ==> forall k :: 0 <= k < n ==> fs[k].body == Progress(P.Forcing)))
  }

  /** The milestones told of a call are in the order of the call's own reports. */
  lemma ToldInOrder(s: State, c: Conn)
    requires S.Inv(s.sup) && ConnInv(s, c)
    ensures StopReports.Milestones(c.told) && (c.told != [] ==> IsStop(c))
    ensures c.cmd == Some(Stop(true)) ==> P.Acknowledged !in c.told
  {
    if c.call.Some? {
      assert StopReports.InfoInv(s.sup.run, c.call.value);
    }
  }

  /** What follows the milestones is a refusal or the answer of the call, never a milestone. */
  lemma TerminalBody(s: State, c: Conn)
    requires S.Inv(s.sup) && ConnInv(s, c)
    ensures |Sofar(c)| <= |c.written| <= |Sofar(c)| + 1
    ensures |c.written| > |Sofar(c)| ==>
      var last := c.written[|c.written| - 1];
      && last.id == s.id && Truthful(s.sup.run, c, last.body)
      && !last.body.Progress? && last.body != Failure(NotRunning)
  {
  }

  /** The frames before the terminal one are the milestones told. */
  lemma MilestonesWritten(s: State, c: Conn)
    requires FramesInv(s, c)
    ensures |c.told| <= |c.written| && |Sofar(c)| == |c.told|
    ensures forall k :: 0 <= k < |c.told| ==> c.written[k] == Frame(s.id, Progress(c.told[k]))
  {
    forall k | 0 <= k < |c.told| ensures c.written[k] == Frame(s.id, Progress(c.told[k])) {
      assert c.written[k] == Sofar(c)[k];
    }
  }

  /**
    In every run each connection has received milestones only on a stop, acknowledged before forcing
    and forcing alone when the stop is forced, and after them at most one terminal frame.
   */
  lemma FramesAreWellFormed(s: State, i: nat)
    requires Reachable(s) && i < |s.conns|
    ensures WellFramed(s.conns[i].written, s.conns[i].cmd)
  {
    ReachableInv(s);
    var c := s.conns[i];
    assert ConnInv(s, c);
    ToldInOrder(s, c);
    MilestonesWritten(s, c);
    TerminalBody(s, c);
    ToldFrames(c.written, s.id, c.told, c.cmd);
  }

  /** Milestones in order, then nothing or one other frame. */
  lemma ToldFrames(fs: seq<Frame>, id: Id, told: seq<P.Stage>, cmd: Option<Command>)
    requires StopReports.Milestones(told) && |told| <= |fs| <= |told| + 1
    requires forall k :: 0 <= k < |told| ==> fs[k] == Frame(id, Progress(told[k]))
    requires told != [] ==> cmd.Some? && cmd.value.Stop?
    requires cmd == Some(Stop(true)) ==> P.Acknowledged !in told
    requires |fs| > |told| ==> !fs[|fs| - 1].body.Progress? && fs[|fs| - 1].body != Failure(NotRunning)
    ensures WellFramed(fs, cmd)
  {
    if fs != [] {
      var n := if fs[|fs| - 1].body.Progress? then |fs| else |fs| - 1;
      assert n == |told|;
      assert forall k :: 0 <= k < n ==> told[k] in told;
    }
  }

  /**
    A success frame on a stop connection is the answer of a stop call that has returned nil; it is the
    last frame, and the child's exit had been published.
   */
  lemma SuccessMeansExited(s: State, i: nat, k: nat)
    requires Reachable(s) && i < |s.conns| && IsStop(s.conns[i])
    requires k < |s.conns[i].written| && s.conns[i].written[k].body.Success?
    ensures k == |s.conns[i].written| - 1 && s.conns[i].call.Some?
    ensures var j := s.conns[i].call.value; j < |s.sup.run.calls| && s.sup.run.calls[j] == P.Returned(P.Nil)
    ensures s.sup.run.shared.done == 1 && s.sup.run.childExited
  {
    ReachableInv(s);
    SuccessOfCall(s, s.conns[i], k);
  }

  lemma SuccessOfCall(s: State, c: Conn, k: nat)
    requires S.Inv(s.sup) && ConnInv(s, c) && IsStop(c) && k < |c.written| && c.written[k].body.Success?
    ensures k == |c.written| - 1 && c.call.Some?
    ensures var j := c.call.value; j < |s.sup.run.calls| && s.sup.run.calls[j] == P.Returned(P.Nil)
    ensures s.sup.run.shared.done == 1 && s.sup.run.childExited
  {
    forall m | 0 <= m < |Sofar(c)| ensures c.written[m].body.Progress? {
      assert c.written[m] == Sofar(c)[m] == Frame(s.id, Progress(c.told[m]));
    }
    TerminalBody(s, c);
    var j := c.call.value;
    assert StopReports.InfoInv(s.sup.run, j) && P.CallInv(s.sup.run, s.sup.run.calls[j]);
  }

  /** A status answer is never "stopped": it is what the backend said, or stopping. */
  lemma StatusIsLive(s: State, i: nat, k: nat)
    requires Reachable(s) && i < |s.conns| && k < |s.conns[i].written| && s.conns[i].written[k].body.Success?
    ensures s.conns[i].written[k].body.status in {None, Some(Running), Some(Paused), Some(Stopping)}
  {
    ReachableInv(s);
    StatusOfCall(s, s.conns[i], k);
  }

  lemma StatusOfCall(s: State, c: Conn, k: nat)
    requires S.Inv(s.sup) && ConnInv(s, c) && k < |c.written| && c.written[k].body.Success?
    ensures c.written[k].body.status in {None, Some(Running), Some(Paused), Some(Stopping)}
  {
    forall m | 0 <= m < |Sofar(c)| ensures c.written[m].body.Progress? {
      assert c.written[m] == Sofar(c)[m] == Frame(s.id, Progress(c.told[m]));
    }
    TerminalBody(s, c);
    if c.call.Some? { assert P.CallInv(s.sup.run, s.sup.run.calls[c.call.value]); }
  }

  /**
    When the server has stopped, every handler has left, and a stop connection that was marked while
    open has received everything its call reported and then the answer of that call, unless writing to
    the peer failed: the shutdown cuts off no stop client.
   */
  lemma StopClientsAreAnswered(s: State, i: nat)
    requires Reachable(s) && s.server == ServerDone && i < |s.conns|
    ensures s.conns[i].pc == Left
    ensures var c, run := s.conns[i], s.sup.run;
      c.kept && !c.failed ==>
        && c.call.Some? && c.call.value < |run.calls| && c.call.value < |run.infos|
        && Answer(run.calls[c.call.value]).Some?
        && c.written ==
             Frames(s.id, run.infos[c.call.value].heard) + [Frame(s.id, Answer(run.calls[c.call.value]).value)]
  {
    ReachableInv(s);
    var c := s.conns[i];
    assert ConnInv(s, c);
    if c.kept && !c.failed {
      assert c.written == Sofar(c) + [c.written[|c.written| - 1]];
    }
  }

  /** When nothing is left to the supervisor but the release of its lock, no handler is at work any more. */
  lemma ReleaseMeansQuiet(s: State)
    requires Reachable(s) && s.sup.pc == S.Releasing
    ensures AllLeft(s.conns) && s.sup.run.shared.done == 1 && s.sup.run.childExited
  {
    ReachableInv(s);
    forall i | 0 <= i < |s.conns| ensures s.conns[i].pc == Left {
      assert ConnInv(s, s.conns[i]);
    }
  }

  // ---------- The shutdown ends ----------

  /** A handler before its call is counted with the rank at which that call enters. */
  function HandlerRank(c: Conn): nat {
    match c.pc
    case Reading => 31
    case Decoded(_) => 30
    case Calling(_, _) => if |c.reported| <= 2 then 6 - |c.reported| else 4
    case Reporting(_) => 3
    case Closing => 2
    case Untracking => 1
    case Left => 0
  }

  function Ranks(conns: seq<Conn>): nat {
    if conns == [] then 0 else HandlerRank(conns[0]) + Ranks(conns[1..])
  }

  function ServerRank(pc: ServerPc): nat {
    match pc
    case NotStarted => 6
    case Serving => 5
    case Cancelled => 4
    case ListenerClosed => 3
    case LoopDone => 2
    case Swept => 1
    case ServerDone => 0
  }

  function Measure(s: State): nat {
    S.Measure(s.sup) + Ranks(s.conns) + ServerRank(s.server)
  }

  lemma {:induction false} RankMoves(conns: seq<Conn>, i: nat, c: Conn)
    requires i < |conns|
    ensures Ranks(conns[i := c]) == Ranks(conns) - HandlerRank(conns[i]) + HandlerRank(c)
    decreases i
  {
    if i == 0 {
      assert conns[i := c][1..] == conns[1..];
    } else {
      assert conns[i := c][1..] == conns[1..][i - 1 := c];
      RankMoves(conns[1..], i - 1, c);
    }
  }

  lemma {:induction false} RankOfSweep(a: seq<Conn>, b: seq<Conn>)
    requires |a| == |b| && forall i :: 0 <= i < |a| ==> HandlerRank(b[i]) == HandlerRank(a[i])
    ensures Ranks(b) == Ranks(a)
    decreases |a|
  {
    if a != [] { RankOfSweep(a[1..], b[1..]); }
  }

  lemma ReceiveDescends(s: State, c: Conn, e: Event, d: Conn)
    requires e.Receive? && HandlerNext(s.id, s.sup.run, c, e) == Some(d)
    ensures HandlerRank(d) < HandlerRank(c)
  {
  }

  /** A call reports at most two milestones. */
  lemma ReportDescends(s: State, c: Conn, e: Event, d: Conn)
    requires S.Inv(s.sup) && ConnInv(s, c) && e.Report? && HandlerNext(s.id, s.sup.run, c, e) == Some(d)
    ensures HandlerRank(d) < HandlerRank(c)
  {
    assert StopReports.InfoInv(s.sup.run, c.pc.call);
  }

  lemma ReturnDescends(s: State, c: Conn, e: Event, d: Conn)
    requires e.CallReturns? && HandlerNext(s.id, s.sup.run, c, e) == Some(d)
    ensures HandlerRank(d) < HandlerRank(c)
  {
  }

  lemma SendDescends(s: State, c: Conn, e: Event, d: Conn)
    requires e.Send? && HandlerNext(s.id, s.sup.run, c, e) == Some(d)
    ensures HandlerRank(d) < HandlerRank(c)
  {
  }

  lemma LeaveDescends(s: State, c: Conn, e: Event, d: Conn)
    requires e.Leave? && HandlerNext(s.id, s.sup.run, c, e) == Some(d)
    ensures HandlerRank(d) < HandlerRank(c)
  {
  }

  lemma HandlerDescends(s: State, c: Conn, e: Event, d: Conn)
    requires S.Inv(s.sup) && ConnInv(s, c) && !e.Dispatch? && HandlerNext(s.id, s.sup.run, c, e) == Some(d)
    ensures HandlerRank(d) < HandlerRank(c)
  {
    if e.Receive? {
      ReceiveDescends(s, c, e, d);
    } else if e.Report? {
      ReportDescends(s, c, e, d);
    } else if e.CallReturns? {
      ReturnDescends(s, c, e, d);
    } else if e.Send? {
      SendDescends(s, c, e, d);
    } else {
      LeaveDescends(s, c, e, d);
    }
  }

  lemma DispatchDecreases(s: State, i: nat)
    requires Inv(s) && i < |s.conns| && HandlerStep(s, i, Dispatch(i)).Some?
    ensures Measure(HandlerStep(s, i, Dispatch(i)).value) < Measure(s)
  {
    var c, t := s.conns[i], HandlerStep(s, i, Dispatch(i)).value;
    assert ConnInv(s, c);
    S.ArrivalCosts(s.sup.run, EntryOf(c.pc.cmd));
    RankMoves(s.conns, i, t.conns[i]);
  }

  lemma HandlerDecreases(s: State, i: nat, e: Event)
    requires Inv(s) && i < |s.conns| && !e.Dispatch? && HandlerStep(s, i, e).Some?
    ensures Measure(HandlerStep(s, i, e).value) < Measure(s)
  {
    var t := HandlerStep(s, i, e).value;
    assert ConnInv(s, s.conns[i]);
    HandlerDescends(s, s.conns[i], e, t.conns[i]);
    RankMoves(s.conns, i, t.conns[i]);
  }

  lemma WorldDecreases(s: State, e: S.Event)
    requires Inv(s) && WorldNext(s, e).Some?
    ensures Measure(WorldNext(s, e).value) < Measure(s)
  {
    S.StepDecreases(s.sup, e);
    var t := WorldNext(s, e).value;
    if t.server != s.server {
      assert s.server == NotStarted;
    }
  }

  lemma ServerDecreases(s: State)
    requires ServerNext(s).Some?
    ensures Measure(ServerNext(s).value) < Measure(s)
  {
    RankOfSweep(s.conns, ServerNext(s).value.conns);
  }

  /** Every step of the run, the supervisor, the server or a handler decreases one measure; only an accept does not. */
  lemma StepDecreases(s: State, e: Event)
    requires Inv(s) && e != Accept && Next(s, e).Some?
    ensures Measure(Next(s, e).value) < Measure(s)
  {
    if e.World? {
      WorldDecreases(s, e.e);
    } else if e == ServerStep {
      ServerDecreases(s);
    } else if e.Dispatch? {
      DispatchDecreases(s, e.i);
    } else {
      HandlerDecreases(s, Target(e).value, e);
    }
  }

  /**
    The steps that are bound to happen: those owed by the run and the supervisor, the server's, the
    handlers' own, and the failure of a read from a closed connection.  No peer need send anything.
   */
  predicate Owed(s: State, e: Event) {
    match e
    case World(w) => S.Owed(s.sup, w)
    case Accept => false
    case Receive(i, request) => request == Malformed && i < |s.conns| && !s.conns[i].open
    case _ => true
  }

  ghost predicate Progresses(s: State) {
    exists e :: Owed(s, e) && Next(s, e).Some?
  }

  /** A call of the run that has not returned has an owed step, which is one of the whole. */
  lemma CallProgresses(s: State, j: nat)
    requires Inv(s) && j < |s.sup.run.calls| && !P.CallFinished(s.sup.run.calls[j])
    ensures Progresses(s)
  {
    StopLiveness.CallProgresses(s.sup.run, j);
    var r :| StopLiveness.Owed(s.sup.run, r) && P.Next(s.sup.run, r).Some?;
    assert Owed(s, World(S.RunEvent(r))) && Next(s, World(S.RunEvent(r))).Some?;
  }

  /** What the handler of `c` does next without its peer; during a call only when it has something to pass on. */
  function Onward(c: Conn, i: nat, pending: bool): Event {
    if c.pc == Reading then Receive(i, Malformed)
    else if c.pc.Decoded? then Dispatch(i)
    else if c.pc.Calling? then (if pending then Report(i, true) else CallReturns(i))
    else if c.pc.Reporting? then Send(i, true) else Leave(i)
  }

  /** A closed connection stops a read, and nothing else stops a handler that is not in a call. */
  lemma HandlerCanMove(id: Id, run: P.State, c: Conn, i: nat)
    requires c.pc != Left && (c.pc == Reading ==> !c.open)
    requires c.pc.Calling? ==>
      c.pc.call < |run.calls| && (Unreported(run, c) != [] || Answer(run.calls[c.pc.call]).Some?)
    ensures HandlerNext(id, run, c, Onward(c, i, Unreported(run, c) != [])).Some?
  {
    if c.pc == Reading {
    } else if c.pc.Calling? {
    } else {
    }
  }

  /** A finished call has an answer when it is the call that a request asked for. */
  lemma FinishedCallAnswers(s: State, c: Conn)
    requires S.Inv(s.sup) && ConnInv(s, c) && c.pc.Calling? && P.CallFinished(s.sup.run.calls[c.pc.call])
    ensures Answer(s.sup.run.calls[c.pc.call]).Some?
  {
    assert StopReports.InfoInv(s.sup.run, c.pc.call);
  }

  /** After the sweep no handler waits for its peer: each can move on, or its call can. */
  lemma HandlerProgresses(s: State, i: nat)
    requires Inv(s) && s.server == Swept && i < |s.conns| && s.conns[i].pc != Left
    ensures Progresses(s)
  {
    var c, run := s.conns[i], s.sup.run;
    assert ConnInv(s, c);
    if c.pc.Calling? {
      if P.CallFinished(run.calls[c.pc.call]) {
        FinishedCallAnswers(s, c);
      } else if Unreported(run, c) == [] {
        CallProgresses(s, c.pc.call);
        return;
      }
    }
    HandlerCanMove(s.id, run, c, i);
    HandlerEventProgresses(s, i, Onward(c, i, Unreported(run, c) != []));
  }

  lemma HandlerEventProgresses(s: State, i: nat, e: Event)
    requires i < |s.conns| && Target(e) == Some(i) && Owed(s, e) && HandlerNext(s.id, s.sup.run, s.conns[i], e).Some?
    ensures Progresses(s)
  {
    assert HandlerStep(s, i, e).Some?;
    assert Next(s, e).Some?;
  }

  /** Past its select the supervisor, and with it the server, is never stuck before the release. */
  lemma NeverStuck(s: State)
    requires Inv(s) && S.PastSelect(s.sup.pc) && s.sup.pc != S.Releasing
    ensures Progresses(s)
  {
    if s.sup.pc == S.StoppingServer && s.server != ServerDone {
      if s.server == Swept && !AllLeft(s.conns) {
        var i :| 0 <= i < |s.conns| && s.conns[i].pc != Left;
        HandlerProgresses(s, i);
      } else {
        assert Owed(s, ServerStep) && Next(s, ServerStep).Some?;
      }
    } else {
      S.NeverStuck(s.sup);
      var w :| S.Owed(s.sup, w) && S.Next(s.sup, w).Some?;
      assert Owed(s, World(w)) && Next(s, World(w)).Some?;
    }
  }

  lemma StuckMeansReleased(s: State)
    requires Inv(s) && S.PastSelect(s.sup.pc) && !Progresses(s)
    ensures s.sup.pc == S.Releasing && AllLeft(s.conns)
  {
    if s.sup.pc != S.Releasing { NeverStuck(s); }
    forall i | 0 <= i < |s.conns| ensures s.conns[i].pc == Left {
      assert ConnInv(s, s.conns[i]);
    }
  }

  lemma StaysPastSelect(s: State, e: Event)
    requires S.PastSelect(s.sup.pc) && Next(s, e).Some?
    ensures S.PastSelect(Next(s, e).value.sup.pc)
  {
  }

  /**
    From any point past the supervisor's select, every run in which no connection is accepted has at
    most `Measure(s)` steps, and one that can go no further has stopped the server, with all handlers
    gone, and reached the release of the lifetime lock.
   */
  lemma {:induction false} ShutdownEnds(s: State, es: seq<Event>)
    requires Inv(s) && S.PastSelect(s.sup.pc) && Exec(s, es).Some? && Accept !in es
    ensures |es| + Measure(Exec(s, es).value) <= Measure(s)
    ensures !Progresses(Exec(s, es).value) ==>
      Exec(s, es).value.sup.pc == S.Releasing && AllLeft(Exec(s, es).value.conns)
    decreases |es|
  {
    if es == [] {
      if !Progresses(s) { StuckMeansReleased(s); }
    } else {
      StepKeepsInv(s, es[0]);
      StepDecreases(s, es[0]);
      StaysPastSelect(s, es[0]);
      ShutdownEnds(Next(s, es[0]).value, es[1..]);
    }
  }
}
