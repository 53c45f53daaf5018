/**
  Why a client's lifetime lock proves less than a supervisor's: a whole run, from the empty store,
  in which a client ends up owning the flock of an inode that no path names.
 */
module LockOrphan {
  import opened Model
  import opened Wrappers
  import opened LockProtocol
  import opened LockInvariant
  import opened LockSafety
  import Lifecycle

  /** The state at the end of a run. */
  function Last(tr: seq<State>): State
    requires |tr| > 0
  {
    tr[|tr| - 1]
  }

  lemma Extended(tr: seq<State>, e: Event) returns (longer: seq<State>)
    requires IsRun(tr) && Next(Last(tr), e).Some?
    ensures IsRun(longer) && Last(longer) == Next(Last(tr), e).value
  {
    longer := tr + [Next(Last(tr), e).value];
    forall i | 0 <= i < |longer| - 1 ensures StepAt(longer, i) {
      if i < |tr| - 1 {
        assert StepAt(tr, i) && longer[i] == tr[i] && longer[i + 1] == tr[i + 1];
      } else {
        assert Next(longer[i], e) == Some(longer[i + 1]);
      }
    }
  }

  const VM := Config(Id(7, 1), false, 0)

  const GONE := Proc(Create(VM), 0, End, false, false, None, None, None, None)

  /** Process 1, the client that asks for the status of the VM. */
  function Client(pc: Pc, locked: bool, fd: Option<Inode>): Proc {
    Proc(Observe(VM.id, Lifecycle.Status), 0, pc, false, locked, None, fd, None, None)
  }

  /** Process 2, the deleter of the VM. */
  function Deleter(pc: Pc, locked: bool, fd: Option<Inode>): Proc {
    Proc(Delete, 0, pc, true, locked, Some(VM), fd, None, None)
  }

  /** The VM exists and its creator has ended. */
  const CREATED := State(map[0 := VM], {7}, map[], map[], map[], 0, map[7 := 0], [GONE])

  /** A client has opened the lifetime lock file, which it had to create. */
  const OPENED := State(
    map[0 := VM], {7}, map[7 := 0], map[], map[], 1, map[7 := 0], [GONE, Client(Opened, false, Some(0))])

  /** A deleter has taken both locks and removed the VM. */
  const REMOVED := State(
    map[], {7}, map[7 := 0], map[0 := 2], map[0 := 2], 1, map[7 := 0],
    [GONE, Client(Opened, false, Some(0)), Deleter(VmRemoved, true, Some(0))])

  /** It has unlinked the lock file and closed its own descriptor. */
  const UNLINKED := State(
    map[], {}, map[], map[0 := 2], map[], 1, map[7 := 0],
    [GONE, Client(Opened, false, Some(0)), Deleter(Unlocked, false, None)])

  /** The creator holds the name lock and has made the runtime directory. */
  const MAKING := State(
    map[], {7}, map[], map[0 := 0], map[], 0, map[7 := 0],
    [Proc(Create(VM), 0, Made, true, false, None, None, None, None)])

  lemma MakingRun() returns (tr: seq<State>)
    ensures IsRun(tr) && Last(tr) == MAKING
  {
    tr := Extended([EMPTY], Spawn(Create(VM), 0));
    tr := Extended(tr, Step(0, Advance));
    tr := Extended(tr, Step(0, Advance));
    tr := Extended(tr, Step(0, Advance));
  }

  lemma CreationRun() returns (tr: seq<State>)
    ensures IsRun(tr) && Last(tr) == CREATED
  {
    tr := MakingRun();
    tr := Extended(tr, Step(0, Advance));
    tr := Extended(tr, Step(0, Advance));
  }

  /** No supervisor answered: the lock has to decide. */
  const PROBING := CREATED.(procs := [GONE, Client(Probing, false, None)])

  lemma ClientProbes(before: seq<State>) returns (tr: seq<State>)
    requires IsRun(before) && Last(before) == CREATED
    ensures IsRun(tr) && Last(tr) == PROBING
  {
    tr := Extended(before, Spawn(Observe(VM.id, Lifecycle.Status), 0));
    tr := Extended(tr, Step(1, Exchange(Lifecycle.Unavailable)));
  }

  lemma ClientOpens(before: seq<State>) returns (tr: seq<State>)
    requires IsRun(before) && Last(before) == CREATED
    ensures IsRun(tr) && Last(tr) == OPENED
  {
    tr := ClientProbes(before);
    tr := Extended(tr, Step(1, Advance));
    tr := Extended(tr, Step(1, Advance));
  }

  /** A deleter holds the name lock and has opened the same lock file. */
  const SHARED := OPENED.(
    nameLocks := map[0 := 2],
    procs := [GONE, Client(Opened, false, Some(0)), Deleter(Opened, false, Some(0))])

  lemma DeleterOpens(before: seq<State>) returns (tr: seq<State>)
    requires IsRun(before) && Last(before) == OPENED
    ensures IsRun(tr) && Last(tr) == SHARED
  {
    tr := Extended(before, Spawn(Delete, 0));
    tr := Extended(tr, Step(2, Advance));
    tr := Extended(tr, Step(2, Advance));
    tr := Extended(tr, Step(2, Advance));
  }

  /** And has taken the flock. */
  const OWNING := SHARED.(
    flocks := map[0 := 2], procs := [GONE, Client(Opened, false, Some(0)), Deleter(Owned, true, Some(0))])

  lemma DeleterOwns(before: seq<State>) returns (tr: seq<State>)
    requires IsRun(before) && Last(before) == OPENED
    ensures IsRun(tr) && Last(tr) == OWNING
  {
    tr := DeleterOpens(before);
    tr := Extended(tr, Step(2, Advance));
  }

  lemma DeleterRemoves(before: seq<State>) returns (tr: seq<State>)
    requires IsRun(before) && Last(before) == OPENED
    ensures IsRun(tr) && Last(tr) == REMOVED
  {
    tr := DeleterOwns(before);
    tr := Extended(tr, Step(2, Advance));
    tr := Extended(tr, Step(2, Advance));
  }

  lemma DeleterUnlinks(before: seq<State>) returns (tr: seq<State>)
    requires IsRun(before) && Last(before) == REMOVED
    ensures IsRun(tr) && Last(tr) == UNLINKED
  {
    tr := Extended(before, Step(2, Unlink));
    assert Last(tr) == REMOVED.(lockFiles := map[]);
    tr := Extended(tr, Step(2, Advance));
    tr := Extended(tr, Step(2, Advance));
  }

  /**
    A client takes no name lock: when it opened the lock file before a deleter unlinked it, it ends up
    owning the flock of an inode that no path names.  For supervisors and deleters
    `LockSafety.NameLockMakesInodePath` excludes this.
   */
  lemma ClientMayLockOrphan() returns (tr: seq<State>)
    ensures IsRun(tr) && |Last(tr).procs| == 3
    ensures var s, p := Last(tr), Last(tr).procs[1];
      p.role.Observe? && p.pc == Owned && p.locked && p.fd.Some? && !AtPath(s, ProcKey(p), p.fd)
  {
    tr := CreationRun();
    tr := ClientOpens(tr);
    tr := DeleterRemoves(tr);
    tr := DeleterUnlinks(tr);
    tr := Extended(tr, Step(1, Conclude(Lifecycle.Absent, false)));
  }
}
