/**
  The client of the control socket, which reads milestones up to one terminal frame
  (internal/supervisor/client.go), against the server of `ControlProtocol`.
 */
module ControlClient {
  import opened Model
  import opened Wrappers
  import opened ControlProtocol
  import P = StopProtocol
  import S = SuperviseProtocol
  import StopReports

  datatype ClientError = BrokenStream | WrongResponseId | UnexpectedProgress | Reported(code: ErrorCode)

  type Outcome = Result<Option<RunState>, ClientError>

  /** What the client makes of the frames it receives before the stream breaks. */
  function ClientFrom(fs: seq<Frame>, id: Id, cmd: Command): Outcome {
    if fs == [] then Err(BrokenStream)
    else if fs[0].id != id then Err(WrongResponseId)
    else if fs[0].body.Progress? then
      if !cmd.Stop? then Err(UnexpectedProgress) else ClientFrom(fs[1..], id, cmd)
    else if fs[0].body.Failure? then Err(Reported(fs[0].body.code))
    else Ok(fs[0].body.status)
  }

  /** `ControlWithProgress`: milestones are passed on in order, the first other frame decides. */
  method ControlWithProgress(fs: seq<Frame>, id: Id, cmd: Command) returns (r: Outcome, reported: seq<P.Stage>)
    ensures r == ClientFrom(fs, id, cmd)
    ensures |reported| <= |fs|
    ensures forall k :: 0 <= k < |reported| ==> cmd.Stop? && fs[k] == Frame(id, Progress(reported[k]))
    ensures r.Ok? ==> |reported| < |fs| && fs[|reported|] == Frame(id, Success(r.value))
  {
    reported := [];
    var n := 0;
    while n < |fs|
      invariant 0 <= n <= |fs| && |reported| == n && ClientFrom(fs, id, cmd) == ClientFrom(fs[n..], id, cmd)
      invariant forall k :: 0 <= k < n ==> cmd.Stop? && fs[k] == Frame(id, Progress(reported[k]))
    {
      var frame := fs[n];
      assert fs[n..][1..] == fs[n + 1..];
      if frame.id != id {
        return Err(WrongResponseId), reported;
      }
      if frame.body.Progress? {
        if !cmd.Stop? {
          return Err(UnexpectedProgress), reported;
        }
        reported, n := reported + [frame.body.stage], n + 1;
        continue;
      }
      return if frame.body.Failure? then Err(Reported(frame.body.code)) else Ok(frame.body.status), reported;
    }
    r := Err(BrokenStream);
  }

  /** A success or a reported error is the verdict on one of the frames, which has the requested ID. */
  lemma {:induction false} VerdictIsAFrame(fs: seq<Frame>, id: Id, cmd: Command) returns (k: nat)
    requires var r := ClientFrom(fs, id, cmd); r.Ok? || r.error.Reported?
    ensures var r := ClientFrom(fs, id, cmd);
      k < |fs| && fs[k] == Frame(id, if r.Ok? then Success(r.value) else Failure(r.error.code))
    decreases |fs|
  {
    k := 0;
    if fs[0].body.Progress? {
      k := VerdictIsAFrame(fs[1..], id, cmd);
      k := k + 1;
    }
  }

  /** Past the milestones, which it reads through, the client's verdict is that of the next frame. */
  lemma {:induction false} ClientReadsMilestones(fs: seq<Frame>, id: Id, cmd: Command, n: nat)
    requires n <= |fs| && cmd.Stop? && forall k :: 0 <= k < n ==> fs[k].id == id && fs[k].body.Progress?
    ensures ClientFrom(fs, id, cmd) == ClientFrom(fs[n..], id, cmd)
    decreases n
  {
    if n > 0 {
      ClientReadsMilestones(fs[1..], id, cmd, n - 1);
      assert fs[1..][n - 1..] == fs[n..];
    }
  }

  /**
    End to end, whatever part of what a stop handler wrote arrives: when the client succeeds, the stop
    call of its request has returned nil and the child's exit has been published.
   */
  lemma StopSuccessMeansExited(s: State, i: nat, n: nat)
    requires Reachable(s) && i < |s.conns| && IsStop(s.conns[i]) && n <= |s.conns[i].written|
    requires ClientFrom(s.conns[i].written[..n], s.id, s.conns[i].cmd.value).Ok?
    ensures s.conns[i].call.Some?
    ensures var j := s.conns[i].call.value; j < |s.sup.run.calls| && s.sup.run.calls[j] == P.Returned(P.Nil)
    ensures s.sup.run.shared.done == 1 && s.sup.run.childExited
  {
    var k := VerdictIsAFrame(s.conns[i].written[..n], s.id, s.conns[i].cmd.value);
    assert s.conns[i].written[..n][k] == s.conns[i].written[k];
    SuccessMeansExited(s, i, k);
  }

  /**
    What a client can conclude from any part of what a handler wrote to it: never "not running", a
    success only from the VM it asked for, on a stop only from a success frame of that stop, and never
    a status of "stopped".
   */
  lemma VerdictOfServer(s: State, c: Conn, n: nat, id: Id, cmd: Command)
    requires S.Inv(s.sup) && ConnInv(s, c) && n <= |c.written| && (c.cmd.None? || c.cmd == Some(cmd))
    ensures var r := ClientFrom(c.written[..n], id, cmd);
      && r != Err(Reported(NotRunning))
      && (r.Ok? ==> id == s.id)
      && (r.Ok? && cmd.Stop? ==> IsStop(c) && exists k :: 0 <= k < |c.written| && c.written[k].body.Success?)
      && (r.Ok? && !cmd.Stop? ==> r.value != Some(Stopped))
  {
    var r := ClientFrom(c.written[..n], id, cmd);
    if r.Ok? || r.error.Reported? {
      var k := VerdictIsAFrame(c.written[..n], id, cmd);
      assert c.written[k] == c.written[..n][k];
      NoMilestoneDecides(s, c, k);
      if r.Ok? { StatusOfCall(s, c, k); }
    }
  }

  /** A frame that is no milestone is the terminal one. */
  lemma NoMilestoneDecides(s: State, c: Conn, k: nat)
    requires S.Inv(s.sup) && ConnInv(s, c) && k < |c.written| && !c.written[k].body.Progress?
    ensures c.written[k].id == s.id && c.written[k].body != Failure(NotRunning)
    ensures c.written[k].body.Success? ==> c.cmd.Some?
  {
    forall m | 0 <= m < |Sofar(c)| ensures c.written[m].body.Progress? {
      assert c.written[m] == Sofar(c)[m] == Frame(s.id, Progress(c.told[m]));
    }
    TerminalBody(s, c);
  }

  /**
    And the other way: a client that was kept and receives all of it succeeds exactly when its stop
    call returned nil, having been told every milestone of that call.
   */
  lemma KeptClientAgrees(s: State, i: nat)
    requires Reachable(s) && s.server == ServerDone && i < |s.conns| && s.conns[i].kept && !s.conns[i].failed
    ensures IsStop(s.conns[i]) && s.conns[i].call.Some? && s.conns[i].call.value < |s.sup.run.calls|
    ensures ClientFrom(s.conns[i].written, s.id, s.conns[i].cmd.value) == Ok(None) <==>
      s.sup.run.calls[s.conns[i].call.value] == P.Returned(P.Nil)
  {
    StopClientsAreAnswered(s, i);
    ReachableInv(s);
    var c := s.conns[i];
    assert ConnInv(s, c);
    var heard := s.sup.run.infos[c.call.value].heard;
    var n := |heard|;
    forall k | 0 <= k < n ensures c.written[k] == Frame(s.id, Progress(heard[k])) {
      assert c.written[k] == Frames(s.id, heard)[k];
    }
    ClientReadsMilestones(c.written, s.id, c.cmd.value, n);
    assert c.written[n..] == [c.written[n]];
    KeptCallIsStop(s, c);
  }

  /** The call behind a stop connection answers with a stop result. */
  lemma KeptCallIsStop(s: State, c: Conn)
    requires Inv(s) && ConnInv(s, c) && IsStop(c) && c.call.Some? && Answer(s.sup.run.calls[c.call.value]).Some?
    ensures s.sup.run.calls[c.call.value].Returned?
  {
    assert StopReports.InfoInv(s.sup.run, c.call.value);
  }
}
