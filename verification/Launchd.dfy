/**
  The launchd transactions, in place on the two domains and the durable scope, where any inspection
  or command may fail (internal/launchd: manage.go, disable.go, enable.go, start.go).  A command that
  reports failure has had no effect; a failed Save may have written, and a failed login install may
  leave a partial file.  Unless the manager is quiet, somebody else may change the plist files while
  launchctl or plutil is running.
 */
module Launchd {
  import opened Wrappers
  import opened LaunchdSpec

  /**
    Refused: an error before anything was changed.  UndoneDisable: an error after which the rollback
    ran, `clean` when none of its steps failed.  Incomplete: any later error of Enable or Start.
   */
  datatype Failure = Refused | UndoneDisable(clean: bool) | Incomplete

  /** `disabledDomain`: what Disable found in one domain and what it has done to it so far. */
  datatype State = State(
    domain: Domain,
    inspection: Option<Bytes>,
    loaded: bool,
    backup: Option<Bytes>,
    removed: bool,
    bootedOut: bool)

  /**
    The job as it is now, given what it was and what Disable has done to it so far; its file only when
    nobody else interferes.
   */
  predicate Tracks(quiet: bool, env: Env, executable: string, st: State, before: Job, now: Job) {
    && before == Job(st.inspection, st.loaded)
    && st.backup == (if st.inspection.None? && st.loaded
                     then Some(BackupPlist(env, st.domain, executable)) else st.inspection)
    && (st.removed ==> st.inspection.Some?) && (st.bootedOut ==> st.loaded)
    && now.loaded == (st.loaded && !st.bootedOut)
    && (quiet ==> now.plist == if st.removed then None else st.inspection)
  }

  /** Disable has both domains in its list, in order, and tracks each of them. */
  predicate Tracking(quiet: bool, env: Env, executable: string, states: seq<State>, before: Jobs, now: Jobs) {
    && |states| == 2
    && states[0].domain == Login && Tracks(quiet, env, executable, states[0], before.login, now.login)
    && states[1].domain == System && Tracks(quiet, env, executable, states[1], before.system, now.system)
  }

  predicate SameLoaded(a: Jobs, b: Jobs) {
    a.login.loaded == b.login.loaded && a.system.loaded == b.system.loaded
  }

  /** At most the plist of domain `d` differs; with interference, at least no loaded flag does. */
  predicate OnlyPlist(quiet: bool, d: Domain, a: Jobs, b: Jobs) {
    SameLoaded(a, b) && (quiet ==> b == a.With(d, a.At(d).(plist := b.At(d).plist)))
  }

  /** At most domain `d` differs; with interference, at least the other loaded flag does not. */
  predicate OnlyDomain(quiet: bool, d: Domain, a: Jobs, b: Jobs) {
    && (if d == Login then a.system.loaded == b.system.loaded else a.login.loaded == b.login.loaded)
    && (quiet ==> b == a.With(d, b.At(d)))
  }

  /** Every plist recorded since `before` is one of `allowed`. */
  predicate OnlyAdds(before: seq<Bytes>, after: seq<Bytes>, allowed: set<Bytes>) {
    before <= after && forall i :: |before| <= i < |after| ==> after[i] in allowed
  }

  /** Every plist removed since `before` carries this VM's label or is the one just written. */
  predicate OnlyOurs(env: Env, before: seq<Bytes>, after: seq<Bytes>, written: Bytes) {
    && before <= after
    && forall i :: |before| <= i < |after| ==> (env.labelOf)(after[i]) == Some(env.ownLabel) || after[i] == written
  }

  function Contents(plist: Option<Bytes>): set<Bytes> {
    if plist.Some? then {plist.value} else {}
  }

  /** The plists that Disable may remove or bootstrap: those it found, and the backups its rollback writes. */
  function Touchable(env: Env, executable: string, jobs: Jobs): set<Bytes> {
    Contents(jobs.login.plist) + Contents(jobs.system.plist)
    + {BackupPlist(env, Login, executable), BackupPlist(env, System, executable)}
  }

  class Manager {
    var jobs: Jobs
    var scope: Scope
    var executable: string
    const env: Env
    /** Nobody else changes the plist files during a transaction. */
    const quiet: bool
    /** How many jobs have been booted out, which ends a VM that runs under them. */
    ghost var bootouts: nat
    /** The content of every plist removed so far. */
    ghost var removed: seq<Bytes>
    /** The content of every plist bootstrapped so far. */
    ghost var launched: seq<Bytes>

    constructor (jobs: Jobs, scope: Scope, executable: string, env: Env, quiet: bool)
      ensures this.jobs == jobs && this.scope == scope && this.executable == executable
      ensures this.env == env && this.quiet == quiet && removed == [] && launched == []
    {
      this.jobs, this.scope, this.executable, this.env, this.quiet := jobs, scope, executable, env, quiet;
      this.bootouts, this.removed, this.launched := 0, [], [];
    }

    function World(): World
      reads `jobs, `scope, `executable
    {
      LaunchdSpec.World(jobs, scope, executable)
    }

    // ---------- External commands ----------

    /** What may happen to the files while an external command runs. */
    method Meanwhile()
      modifies `jobs
      ensures SameLoaded(old(jobs), jobs) && (quiet ==> jobs == old(jobs))
    {
      if !quiet {
        var login: Option<Bytes> := *;
        var system: Option<Bytes> := *;
        jobs := Jobs(Job(login, jobs.login.loaded), Job(system, jobs.system.loaded));
      }
    }

    /** `inspectPath`: a readable plist in domain `d` carries this VM's label, or there is an error. */
    method InspectPath(d: Domain) returns (plist: Option<Bytes>, ok: bool)
      ensures ok ==> plist == jobs.At(d).plist && !Foreign(env, jobs.At(d))
    {
      ok := *;
      plist := jobs.At(d).plist;
      if plist.Some? && (env.labelOf)(plist.value) != Some(env.ownLabel) {
        ok := false;
      }
    }

    /** `printLoaded` */
    method PrintLoaded(d: Domain) returns (loaded: bool, ok: bool)
      modifies `jobs
      ensures SameLoaded(old(jobs), jobs) && (quiet ==> jobs == old(jobs))
      ensures ok ==> loaded == jobs.At(d).loaded
    {
      Meanwhile();
      ok := *;
      loaded := jobs.At(d).loaded;
    }

    /** `verifyInstalled`: ownership and mode are checked too, so it may refuse the exact bytes. */
    method VerifyInstalled(d: Domain, expected: Bytes) returns (ok: bool)
      ensures ok ==> jobs.At(d).plist == Some(expected)
    {
      ok := *;
      ok := ok && jobs.At(d).plist == Some(expected);
    }

    /** `removePlist`; a missing file is no error. */
    method RemovePlist(d: Domain) returns (ok: bool)
      modifies `jobs, `removed
      ensures jobs == if ok then old(jobs).With(d, old(jobs).At(d).(plist := None)) else old(jobs)
      ensures OnlyAdds(old(removed), removed, Contents(old(jobs).At(d).plist))
      ensures !ok ==> removed == old(removed)
    {
      ok := *;
      if ok {
        if jobs.At(d).plist.Some? { removed := removed + [jobs.At(d).plist.value]; }
        jobs := jobs.With(d, jobs.At(d).(plist := None));
      }
    }

    /** `installCandidate`: the system file is replaced, the login file must not exist before. */
    method InstallCandidate(d: Domain, bytes: Bytes) returns (ok: bool)
      modifies `jobs
      ensures jobs == old(jobs).With(d, old(jobs).At(d).(plist := jobs.At(d).plist))
      ensures ok ==> jobs.At(d).plist == Some(bytes) && (d == Login ==> old(jobs).login.plist == None)
      ensures !ok && (d == System || old(jobs).login.plist.Some?) ==> jobs == old(jobs)
    {
      ok := *;
      if d == Login && jobs.login.plist.Some? {
        return false;
      }
      if ok {
        jobs := jobs.With(d, jobs.At(d).(plist := Some(bytes)));
      } else if d == Login {
        // A write failed; the file is gone again unless removing it failed as well.
        var left: Option<Bytes> := *;
        jobs := jobs.With(d, jobs.At(d).(plist := left));
      }
    }

    method Bootout(d: Domain) returns (ok: bool)
      modifies `jobs, `bootouts
      ensures OnlyDomain(quiet, d, old(jobs), jobs)
      ensures jobs.At(d).loaded == (!ok && old(jobs).At(d).loaded)
      ensures quiet ==> jobs.At(d).plist == old(jobs).At(d).plist
      ensures bootouts == old(bootouts) + if ok then 1 else 0
    {
      Meanwhile();
      ok := *;
      if ok {
        jobs := jobs.With(d, jobs.At(d).(loaded := false));
        bootouts := bootouts + 1;
      }
    }

    /** Bootstrapping needs the plist to be there and the job not to be loaded. */
    method Bootstrap(d: Domain) returns (ok: bool)
      modifies `jobs, `launched
      ensures OnlyDomain(quiet, d, old(jobs), jobs)
      ensures jobs.At(d).loaded == (ok || old(jobs).At(d).loaded)
      ensures quiet ==> jobs.At(d).plist == old(jobs).At(d).plist
      ensures OnlyAdds(old(launched), launched, Contents(old(jobs).At(d).plist))
      ensures ok ==> old(jobs).At(d).plist.Some? && !old(jobs).At(d).loaded
    {
      ok := *;
      ok := ok && jobs.At(d).plist.Some? && !jobs.At(d).loaded;
      if ok {
        launched := launched + [jobs.At(d).plist.value];
        jobs := jobs.With(d, jobs.At(d).(loaded := true));
      }
      Meanwhile();
    }

    /** `NameLock.Save`: an error may be reported after the new configuration is in place. */
    method Save(s: Scope) returns (ok: bool)
      modifies `scope
      ensures scope == s || (!ok && scope == old(scope))
    {
      ok := *;
      var written := *;
      if ok || written { scope := s; }
    }

    /** `removeInstalledIfExact` */
    method RemoveInstalledIfExact(d: Domain, expected: Bytes) returns (ok: bool)
      modifies `jobs, `removed
      ensures OnlyPlist(true, d, old(jobs), jobs) && OnlyAdds(old(removed), removed, {expected})
      ensures jobs.At(d).plist == old(jobs).At(d).plist
           || (jobs.At(d).plist == None && old(jobs).At(d).plist == Some(expected))
      ensures ok ==> jobs.At(d).plist == None
    {
      var current, readable := InspectPath(d);
      if !readable {
        return false;
      }
      if current.None? {
        return true;
      }
      ok := VerifyInstalled(d, expected);
      if !ok {
        return;
      }
      ok := RemovePlist(d);
    }

    /** `installPlist`, and the same steps in `restorePlist`: lint, install, verify, clean up what failed. */
    method InstallPlist(d: Domain, rendered: Bytes) returns (ok: bool)
      modifies `jobs, `removed
      ensures OnlyPlist(quiet, d, old(jobs), jobs) && OnlyAdds(old(removed), removed, {rendered})
      ensures ok ==> jobs.At(d).plist == Some(rendered)
      ensures ok && quiet && d == Login ==> old(jobs).login.plist == None
    {
      Meanwhile();
      var prepared := *;
      if !prepared {
        return false;
      }
      ok := InstallCandidate(d, rendered);
      if !ok {
        var gone := RemoveInstalledIfExact(d, rendered);
        return;
      }
      ok := VerifyInstalled(d, rendered);
      if !ok {
        var gone := RemovePlist(d);
      }
    }

    /** `renderExpected`: fails when the program is not an executable file, or rendering fails. */
    method RenderExpected(s: Scope) returns (bytes: Bytes, ok: bool)
      ensures bytes == Expected(env, s, executable)
    {
      ok := *;
      bytes := (env.render)(s, (env.clean)(executable));
    }

    // ---------- Disable ----------

    /** What Disable finds in one domain. */
    method GatherDomain(d: Domain, ghost before: Job, inspection: Option<Bytes>) returns (st: State, ok: bool)
      requires inspection == before.plist && before.loaded == jobs.At(d).loaded
      requires quiet ==> inspection == jobs.At(d).plist
      modifies `jobs
      ensures SameLoaded(old(jobs), jobs) && (quiet ==> jobs == old(jobs))
      ensures ok ==> st.domain == d && Tracks(quiet, env, executable, st, before, jobs.At(d))
      ensures ok ==> !st.removed && !st.bootedOut
    {
      var loaded;
      loaded, ok := PrintLoaded(d);
      var backup := inspection;
      if ok && loaded && backup.None? {
        ok := *;
        backup := Some((env.render)(ScopeOf(d), executable));
      }
      st := State(d, inspection, loaded, backup, false, false);
    }

    /**
      The part of Disable's loop for one domain: re-check, boot out, re-check, remove.  Nothing but the
      plist that was found is removed, even if it was replaced while the job was booted out.
     */
    method DisableDomain(st: State, ghost before: Job) returns (next: State, ok: bool)
      requires Tracks(quiet, env, executable, st, before, jobs.At(st.domain)) && !st.removed && !st.bootedOut
      modifies `jobs, `bootouts, `removed
      ensures next.domain == st.domain && next.loaded == st.loaded
      ensures OnlyDomain(quiet, st.domain, old(jobs), jobs)
      ensures Tracks(quiet, env, executable, next, before, jobs.At(st.domain))
      ensures ok ==> !jobs.At(st.domain).loaded && (quiet ==> jobs.At(st.domain) == Job(None, false))
      ensures !st.loaded ==> bootouts == old(bootouts)
      ensures OnlyAdds(old(removed), removed, Contents(st.inspection))
    {
      next := st;
      var current, readable := InspectPath(st.domain);
      if !readable || current != st.inspection {
        return next, false;
      }
      if st.loaded {
        ok := Bootout(st.domain);
        if !ok {
          return;
        }
        next := next.(bootedOut := true);
      }
      if st.inspection.Some? {
        current, readable := InspectPath(st.domain);
        if !readable || current != st.inspection {
          return next, false;
        }
        ok := RemovePlist(st.domain);
        if !ok {
          return;
        }
        next := next.(removed := true);
      }
      ok := true;
    }

    /** The part of the rollback for one domain; a job is bootstrapped only from its own backup. */
    method RollbackDomain(st: State, ghost before: Job) returns (ok: bool)
      requires Tracks(quiet, env, executable, st, before, jobs.At(st.domain))
      modifies `jobs, `removed, `launched
      ensures OnlyDomain(quiet, st.domain, old(jobs), jobs)
      ensures ok ==> jobs.At(st.domain).loaded == before.loaded
      ensures ok && quiet ==> Restored(env, st.domain, executable, before, jobs.At(st.domain))
      ensures OnlyAdds(old(removed), removed, Contents(st.backup))
      ensures OnlyAdds(old(launched), launched, Contents(st.backup))
    {
      var needsRestore := st.removed || (st.bootedOut && st.loaded && st.inspection.None?);
      if needsRestore && st.backup.Some? {
        ok := InstallPlist(st.domain, st.backup.value);
        if !ok {
          return;
        }
      }
      if st.bootedOut && st.loaded {
        var current, readable := InspectPath(st.domain);
        if !readable || current.None? || current != st.backup {
          return false;
        }
        ok := Bootstrap(st.domain);
        return;
      }
      ok := true;
    }

    /** The rollback closure: the configuration first when it may have been saved, then the domains in reverse. */
    method Rollback(states: seq<State>, restoreConfig: bool, was: Scope, ghost before: World) returns (clean: bool)
      requires Tracking(quiet, env, executable, states, before.jobs, jobs)
      requires before.executable == executable && before.scope == was && (restoreConfig || scope == was)
      modifies `jobs, `scope, `removed, `launched
      ensures clean ==> scope == was && SameLoaded(before.jobs, jobs)
      ensures clean && quiet ==> RolledBack(env, before, World())
      ensures OnlyAdds(old(removed), removed, Contents(states[0].backup) + Contents(states[1].backup))
      ensures OnlyAdds(old(launched), launched, Contents(states[0].backup) + Contents(states[1].backup))
    {
      clean := true;
      if restoreConfig {
        clean := Save(was);
      }
      var i := |states|;
      while i > 0
        invariant 0 <= i <= 2
        invariant clean ==> scope == was
        invariant i > 0 ==> Tracks(quiet, env, executable, states[0], before.jobs.login, jobs.login)
        invariant i > 1 ==> Tracks(quiet, env, executable, states[1], before.jobs.system, jobs.system)
        invariant i <= 0 && clean ==> before.jobs.login.loaded == jobs.login.loaded
        invariant i <= 1 && clean ==> before.jobs.system.loaded == jobs.system.loaded
        invariant i <= 0 && clean && quiet ==> Restored(env, Login, executable, before.jobs.login, jobs.login)
        invariant i <= 1 && clean && quiet ==> Restored(env, System, executable, before.jobs.system, jobs.system)
        invariant OnlyAdds(old(removed), removed, Contents(states[0].backup) + Contents(states[1].backup))
        invariant OnlyAdds(old(launched), launched, Contents(states[0].backup) + Contents(states[1].backup))
      {
        i := i - 1;
        var ok := RollbackDomain(states[i], before.jobs.At(states[i].domain));
        clean := clean && ok;
      }
    }

    /** Disable up to its safety gate: both plists are ours, and what is loaded is known. */
    method Gather() returns (states: seq<State>, ok: bool)
      modifies `jobs
      ensures SameLoaded(old(jobs), jobs) && (quiet ==> jobs == old(jobs))
      ensures ok ==> Tracking(quiet, env, executable, states, old(jobs), jobs) && !AnyForeign(env, old(jobs))
      ensures ok ==> forall i :: 0 <= i < 2 ==> !states[i].removed && !states[i].bootedOut
    {
      var login, loginOk := InspectPath(Login);
      var system, systemOk := InspectPath(System);
      if !loginOk || !systemOk {
        return [], false;
      }
      ghost var before := jobs;
      var first, second;
      first, ok := GatherDomain(Login, before.login, login);
      if !ok {
        return [], false;
      }
      second, ok := GatherDomain(System, before.system, system);
      states := [first, second];
    }

    /** The loop of Disable over both domains. */
    method DisableDomains(gathered: seq<State>, ghost before: Jobs) returns (states: seq<State>, ok: bool)
      requires Tracking(quiet, env, executable, gathered, before, jobs)
      requires forall i :: 0 <= i < 2 ==> !gathered[i].removed && !gathered[i].bootedOut
      modifies `jobs, `bootouts, `removed
      ensures Tracking(quiet, env, executable, states, before, jobs)
      ensures ok ==> SameLoaded(jobs, EMPTY) && (quiet ==> jobs == EMPTY)
      ensures !before.login.loaded && !before.system.loaded ==> bootouts == old(bootouts)
      ensures OnlyAdds(old(removed), removed, Contents(before.login.plist) + Contents(before.system.plist))
    {
      states, ok := gathered, true;
      var i := 0;
      while i < |states| && ok
        invariant 0 <= i <= 2 && Tracking(quiet, env, executable, states, before, jobs)
        invariant ok ==> forall k :: i <= k < 2 ==> !states[k].removed && !states[k].bootedOut
        invariant ok && i > 0 ==> !jobs.login.loaded && (quiet ==> jobs.login == Job(None, false))
        invariant ok && i > 1 ==> !jobs.system.loaded && (quiet ==> jobs.system == Job(None, false))
        invariant !before.login.loaded && !before.system.loaded ==> bootouts == old(bootouts)
        invariant OnlyAdds(old(removed), removed, Contents(before.login.plist) + Contents(before.system.plist))
        decreases 2 - i, ok
      {
        var next;
        next, ok := DisableDomain(states[i], before.At(states[i].domain));
        states := states[i := next];
        if ok {
          i := i + 1;
        }
      }
    }

    /** Disable past its gate and its shortcut: both domains, then the scope, or all of it undone. */
    method Commence(gathered: seq<State>, ghost before: World) returns (err: Option<Failure>)
      requires Tracking(quiet, env, executable, gathered, before.jobs, jobs)
      requires forall i :: 0 <= i < 2 ==> !gathered[i].removed && !gathered[i].bootedOut
      requires before.executable == executable && before.scope == scope
      modifies `jobs, `scope, `bootouts, `removed, `launched
      ensures err.None? ==> scope == NoScope && SameLoaded(jobs, EMPTY) && (quiet ==> jobs == EMPTY)
      ensures err.None? || err.value.UndoneDisable?
      ensures err == Some(UndoneDisable(true)) ==> scope == before.scope && SameLoaded(before.jobs, jobs)
      ensures err == Some(UndoneDisable(true)) && quiet ==> RolledBack(env, before, World())
      ensures !before.jobs.login.loaded && !before.jobs.system.loaded ==> bootouts == old(bootouts)
      ensures OnlyAdds(old(removed), removed, Touchable(env, executable, before.jobs))
      ensures OnlyAdds(old(launched), launched, Touchable(env, executable, before.jobs))
    {
      var states, ok := DisableDomains(gathered, before.jobs);
      var was := scope;
      var saving := ok && scope != NoScope;
      if saving {
        ok := Save(NoScope);
      }
      if !ok {
        // A failed Save may have written, so the configuration is restored too.
        var clean := Rollback(states, saving, was, before);
        return Some(UndoneDisable(clean));
      }
      err := None;
    }

    /**
      Disable.  `stopped` is the verdict of the caller's running check, None when it wired none.
     */
    method Disable(stopped: Option<bool>) returns (err: Option<Failure>)
      modifies `jobs, `scope, `bootouts, `removed, `launched
      ensures executable == old(executable) && err != Some(Incomplete)
      // All or nothing, when nobody else interferes.
      ensures quiet && err.None? ==> Disabled(old(World()), World())
      ensures quiet && err == Some(Refused) ==> World() == old(World())
      ensures quiet && err == Some(UndoneDisable(true)) ==> RolledBack(env, old(World()), World())
      ensures quiet && NothingInstalled(old(World())) ==> err.None? || err == Some(Refused)
      // Whoever interferes: what is loaded and configured, and what was removed and bootstrapped.
      ensures err.None? ==> scope == NoScope && (!NothingInstalled(old(World())) ==> SameLoaded(jobs, EMPTY))
      ensures err == Some(Refused) || err == Some(UndoneDisable(true)) ==>
        scope == old(scope) && SameLoaded(old(jobs), jobs)
      ensures OnlyAdds(old(removed), removed, Touchable(env, executable, old(jobs)))
      ensures OnlyAdds(old(launched), launched, Touchable(env, executable, old(jobs)))
      // The safety gate, and the refusal to touch a plist of another job.
      ensures stopped == Some(false) || AnyForeign(env, old(jobs)) ==> err == Some(Refused)
      ensures stopped == None && (old(jobs).login.loaded || old(jobs).system.loaded) ==> err == Some(Refused)
      ensures err == Some(Refused) ==> removed == old(removed)
      ensures bootouts != old(bootouts) ==> stopped == Some(true)
    {
      var config := *;
      if !config {
        return Some(Refused);
      }
      ghost var before := World();
      var states, ok := Gather();
      if !ok {
        return Some(Refused);
      }
      if if stopped.Some? then !stopped.value else states[0].loaded || states[1].loaded {
        return Some(Refused);
      }
      if scope == NoScope && states[0].inspection.None? && states[1].inspection.None? {
        return None;
      }
      err := Commence(states, before);
    }

    // ---------- Enable ----------

    /** The plist `drifted` found in domain `d` gives way to the current one. */
    method ReplacePlist(d: Domain, drifted: Bytes, expected: Bytes) returns (ok: bool)
      requires (env.labelOf)(drifted) == Some(env.ownLabel)
      modifies `jobs, `removed
      ensures OnlyPlist(quiet, d, old(jobs), jobs) && OnlyOurs(env, old(removed), removed, expected)
      ensures ok ==> jobs.At(d).plist == Some(expected)
    {
      ok := VerifyInstalled(d, drifted);
      if !ok {
        return;
      }
      ok := RemovePlist(d);
      if !ok {
        return;
      }
      ok := InstallPlist(d, expected);
    }

    /** Enable of the configured scope: only a drifted plist is rewritten. */
    method Reconcile() returns (reconciled: bool, ok: bool)
      requires scope != NoScope
      modifies `jobs, `removed
      ensures OnlyPlist(quiet, DomainOf(scope), old(jobs), jobs)
      ensures OnlyOurs(env, old(removed), removed, Expected(env, scope, executable))
      ensures ok && quiet ==> World() == Reconciled(env, old(World())) && (reconciled <==> jobs != old(jobs))
    {
      var d := DomainOf(scope);
      reconciled := false;
      var installed;
      installed, ok := InspectPath(d);
      if !ok || installed.None? {
        return;
      }
      var expected;
      expected, ok := RenderExpected(scope);
      if !ok || installed.value == expected {
        return;
      }
      ok := ReplacePlist(d, installed.value, expected);
      reconciled := ok;
    }

    /** A plist found under scope none is an orphan; exactly that file goes, a loaded job stays loaded. */
    method RemoveOrphan(d: Domain, found: Option<Bytes>) returns (ok: bool)
      modifies `jobs, `removed
      requires quiet ==> found == jobs.At(d).plist
      ensures OnlyPlist(true, d, old(jobs), jobs) && OnlyAdds(old(removed), removed, Contents(found))
      ensures ok && (quiet || found.Some?) ==> jobs.At(d).plist == None
    {
      if found.None? {
        return true;
      }
      ok := VerifyInstalled(d, found.value);
      if ok {
        ok := RemovePlist(d);
      }
    }

    /** The last part of Enable from scope none, once the orphans are gone: install, then record the scope. */
    method Commit(s: Scope, rendered: Bytes) returns (err: Option<Failure>, ghost undone: bool)
      requires s != NoScope && scope == NoScope
      requires quiet ==> jobs.login.plist == None && jobs.system.plist == None
      modifies `jobs, `scope, `removed
      ensures OnlyPlist(quiet, DomainOf(s), old(jobs), jobs) && OnlyAdds(old(removed), removed, {rendered})
      ensures err.None? ==> scope == s && jobs.At(DomainOf(s)).plist == Some(rendered)
      ensures err.Some? ==> err == Some(Incomplete) && scope in {NoScope, s}
      ensures err.Some? && undone ==>
        scope == NoScope && jobs.At(DomainOf(s)).plist == None && (quiet ==> jobs == old(jobs))
    {
      var d := DomainOf(s);
      undone := false;
      var ok := InstallPlist(d, rendered);
      if !ok {
        return Some(Incomplete), false;
      }
      ok := Save(s);
      if !ok {
        var cleaned := VerifyInstalled(d, rendered);
        if cleaned {
          cleaned := RemovePlist(d);
        }
        var restored := Save(NoScope);
        return Some(Incomplete), cleaned && restored;
      }
      err := None;
    }

    /** Enable: the scope is recorded and the plist written; no job is loaded or unloaded, whatever fails. */
    method Enable(s: Scope, healthy: bool) returns (err: Option<Failure>, reconciled: bool)
      modifies `jobs, `scope, `removed
      ensures executable == old(executable)
      ensures quiet && err.None? ==> Happens(env, EnableCall(s), old(World()), World())
      ensures quiet && err.None? ==> (reconciled <==> old(scope) == s && jobs != old(jobs))
      ensures quiet && err == Some(Refused) ==> World() == old(World())
      // Whoever interferes.
      ensures SameLoaded(old(jobs), jobs) && (err.None? ==> scope == s)
      ensures err.Some? ==> scope in {old(scope), s}
      ensures OnlyOurs(env, old(removed), removed, Expected(env, s, executable))
      ensures s == NoScope || old(scope) !in {NoScope, s} || AnyForeign(env, old(jobs)) ==> err == Some(Refused)
      ensures old(scope) == NoScope && !healthy ==> err == Some(Refused)
      ensures err == Some(Refused) ==> scope == old(scope) && removed == old(removed)
    {
      reconciled := false;
      var config := *;
      if s == NoScope || !config {
        return Some(Refused), false;
      }
      var login, loginOk := InspectPath(Login);
      var system, systemOk := InspectPath(System);
      if !loginOk || !systemOk {
        return Some(Refused), false;
      }
      var loginLoaded, loginPrinted := PrintLoaded(Login);
      var systemLoaded, systemPrinted := PrintLoaded(System);
      if !loginPrinted || !systemPrinted {
        return Some(Refused), false;
      }
      var ok;
      if scope == s {
        reconciled, ok := Reconcile();
        return if ok then None else Some(Incomplete), reconciled;
      }
      if scope != NoScope || !healthy {
        return Some(Refused), false;
      }
      var rendered;
      rendered, ok := RenderExpected(s);
      if !ok {
        return Some(Refused), false;
      }
      ok := RemoveOrphan(Login, login);
      if !ok {
        return Some(Incomplete), false;
      }
      ok := RemoveOrphan(System, system);
      if !ok {
        return Some(Incomplete), false;
      }
      ghost var undone;
      err, undone := Commit(s, rendered);
    }

    // ---------- Start ----------

    /** Start's first half: the plist of the configured domain is the current one, present or not before. */
    method RefreshPlist(d: Domain, expected: Bytes) returns (ok: bool)
      modifies `jobs, `removed
      ensures OnlyPlist(quiet, d, old(jobs), jobs) && OnlyOurs(env, old(removed), removed, expected)
      ensures ok ==> jobs.At(d).plist == Some(expected)
      ensures Foreign(env, old(jobs).At(d)) ==> !ok && jobs == old(jobs)
    {
      var installed, readable := InspectPath(d);
      if !readable {
        return false;
      }
      if installed.None? {
        ok := InstallPlist(d, expected);
      } else if installed.value == expected {
        ok := true;
      } else {
        ok := ReplacePlist(d, installed.value, expected);
      }
    }

    /** Start: refreshes the plist, boots a loaded job out and bootstraps it. */
    method Start(stopped: Option<bool>) returns (err: Option<Failure>)
      modifies `jobs, `bootouts, `removed, `launched
      ensures quiet && err.None? ==> Happens(env, StartCall, old(World()), World())
      ensures err == Some(Refused) ==> World() == old(World()) && removed == old(removed)
      // Whoever interferes.
      ensures err.None? ==> scope != NoScope && jobs.At(DomainOf(scope)).loaded
      ensures OnlyDomain(quiet, DomainOf(scope), old(jobs), jobs)
      ensures OnlyOurs(env, old(removed), removed, Expected(env, scope, executable))
      ensures old(scope) == NoScope || stopped == Some(false) ==> err == Some(Refused)
      ensures Foreign(env, old(jobs).At(DomainOf(scope))) ==> err.Some? && World() == old(World())
      ensures bootouts != old(bootouts) ==> stopped != Some(false)
    {
      var config := *;
      if !config || scope == NoScope || stopped == Some(false) {
        return Some(Refused);
      }
      var d := DomainOf(scope);
      var expected, ok := RenderExpected(scope);
      if !ok {
        return Some(Refused);
      }
      ok := RefreshPlist(d, expected);
      if !ok {
        return Some(Incomplete);
      }
      var loaded;
      loaded, ok := PrintLoaded(d);
      if !ok {
        return Some(Incomplete);
      }
      if loaded {
        ok := Bootout(d);
        if !ok {
          return Some(Incomplete);
        }
      }
      ok := Bootstrap(d);
      err := if ok then None else Some(Incomplete);
    }
  }

  /**
    The shortcut of Disable at work: with scope none and no file, a job that launchd has loaded stays
    loaded, and a caller whose VM is stopped gets nil, unless an inspection failed.
   */
  method DisableOverlooksLoadedJob(env: Env, executable: string) returns (manager: Manager, err: Option<Failure>)
    ensures manager.jobs == Jobs(Job(None, true), Job(None, false)) && manager.scope == NoScope
    ensures err.None? || err == Some(Refused)
    ensures !Cleared(manager.World())
  {
    manager := new Manager(Jobs(Job(None, true), Job(None, false)), NoScope, executable, env, true);
    err := manager.Disable(Some(true));
  }
}
