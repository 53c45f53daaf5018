/**
  What a successful Enable, Disable and Start of an autostart job leave in the two launchd domains
  and in the durable scope (internal/launchd), and what every sequence of such calls keeps.
 */
module LaunchdSpec {
  import opened Wrappers

  datatype Domain = Login | System

  datatype Scope = NoScope | LoginScope | BootScope

  /** One domain: the plist file on disk and whether launchd has the job loaded. */
  datatype Job = Job(plist: Option<Bytes>, loaded: bool)

  datatype Jobs = Jobs(login: Job, system: Job) {
    function At(d: Domain): Job {
      if d == Login then login else system
    }

    function With(d: Domain, job: Job): Jobs {
      if d == Login then this.(login := job) else this.(system := job)
    }
  }

  /** Both domains, the scope in the VM's configuration and the path of the installed program. */
  datatype World = World(jobs: Jobs, scope: Scope, executable: string)

  /**
    The pure parts: the label of this VM, the label scan of a plist (None when the scan fails),
    rendering a configuration, and path cleaning.
   */
  datatype Env = Env(
    ownLabel: string,
    labelOf: Bytes -> Option<string>,
    render: (Scope, string) -> Bytes,
    clean: string -> string)

  function DomainOf(s: Scope): Domain {
    if s == BootScope then System else Login
  }

  function ScopeOf(d: Domain): Scope {
    if d == System then BootScope else LoginScope
  }

  /** The plist that Enable and Start install for the configured scope. */
  function Expected(env: Env, s: Scope, executable: string): Bytes {
    (env.render)(s, (env.clean)(executable))
  }

  /** The plist that Disable's rollback writes for a job that was loaded without one. */
  function BackupPlist(env: Env, d: Domain, executable: string): Bytes {
    (env.render)(ScopeOf(d), executable)
  }

  predicate Foreign(env: Env, job: Job) {
    job.plist.Some? && (env.labelOf)(job.plist.value) != Some(env.ownLabel)
  }

  predicate AnyForeign(env: Env, jobs: Jobs) {
    Foreign(env, jobs.login) || Foreign(env, jobs.system)
  }

  /** Disable's shortcut looks at the scope and the two files, not at what is loaded. */
  predicate NothingInstalled(w: World) {
    w.scope == NoScope && w.jobs.login.plist == None && w.jobs.system.plist == None
  }

  const EMPTY := Jobs(Job(None, false), Job(None, false))

  /** Nothing is installed, nothing is loaded, nothing is configured. */
  predicate Cleared(w: World) {
    w.jobs == EMPTY && w.scope == NoScope
  }

  predicate Disabled(before: World, after: World) {
    && after.executable == before.executable
    && (if NothingInstalled(before) then after == before else Cleared(after))
  }

  /** What a rollback that reports no failure leaves of one domain. */
  predicate Restored(env: Env, d: Domain, executable: string, before: Job, after: Job) {
    after == before || (before == Job(None, true) && after == Job(Some(BackupPlist(env, d, executable)), true))
  }

  predicate RolledBack(env: Env, before: World, after: World) {
    && after.scope == before.scope && after.executable == before.executable
    && Restored(env, Login, before.executable, before.jobs.login, after.jobs.login)
    && Restored(env, System, before.executable, before.jobs.system, after.jobs.system)
  }

  /** Enable from scope none: stray plists go, the plist of the scope is installed, the scope is recorded. */
  function Enabled(env: Env, before: World, s: Scope): World {
    var stripped := Jobs(before.jobs.login.(plist := None), before.jobs.system.(plist := None));
    before.(
      jobs := stripped.With(DomainOf(s), stripped.At(DomainOf(s)).(plist := Some(Expected(env, s, before.executable)))),
      scope := s)
  }

  /** Enable of the scope already configured: a plist that is there becomes the current one. */
  function Reconciled(env: Env, before: World): World {
    var d := DomainOf(before.scope);
    var job := before.jobs.At(d);
    if job.plist.None? then before
    else before.(jobs := before.jobs.With(d, job.(plist := Some(Expected(env, before.scope, before.executable)))))
  }

  function Started(env: Env, before: World): World {
    var d := DomainOf(before.scope);
    before.(jobs := before.jobs.With(d, Job(Some(Expected(env, before.scope, before.executable)), true)))
  }

  // ---------- Sequences of calls ----------

  /** A call that returned nil, a new installation of the program, or launchd loading an installed job. */
  datatype Event = EnableCall(s: Scope) | DisableCall | StartCall | Upgrade(executable: string) | Activate(d: Domain)

  predicate Happens(env: Env, e: Event, before: World, after: World) {
    match e
    case EnableCall(s) =>
      s != NoScope &&
      (if before.scope == NoScope then after == Enabled(env, before, s)
       else before.scope == s && after == Reconciled(env, before))
    case DisableCall => Disabled(before, after)
    case StartCall => before.scope != NoScope && after == Started(env, before)
    case Upgrade(path) => after == before.(executable := path)
    case Activate(d) =>
      && before.jobs.At(d).plist.Some?
      && after == before.(jobs := before.jobs.With(d, before.jobs.At(d).(loaded := true)))
  }

  predicate IsRun(env: Env, events: seq<Event>, worlds: seq<World>) {
    && |worlds| == |events| + 1 && Cleared(worlds[0])
    && (forall i :: 0 <= i < |events| ==> HappensAt(env, events, worlds, i))
  }

  predicate HappensAt(env: Env, events: seq<Event>, worlds: seq<World>, i: nat)
    requires i < |events| && |worlds| == |events| + 1
  {
    Happens(env, events[i], worlds[i], worlds[i + 1])
  }

  /** A plist is in a domain exactly when that domain is configured, and only installed jobs are loaded. */
  predicate Consistent(w: World) {
    forall d: Domain ::
      && (w.jobs.At(d).plist.Some? <==> w.scope == ScopeOf(d))
      && (w.jobs.At(d).loaded ==> w.jobs.At(d).plist.Some?)
  }

  /** The plist of the configured scope is the one rendered for the program that is installed now. */
  predicate UpToDate(env: Env, w: World) {
    w.scope != NoScope &&
    w.jobs.At(DomainOf(w.scope)).plist == Some(Expected(env, w.scope, w.executable))
  }

  lemma EventKeepsConsistent(env: Env, e: Event, before: World, after: World)
    requires Consistent(before) && Happens(env, e, before, after)
    ensures Consistent(after)
    ensures e.EnableCall? || e.StartCall? ==> UpToDate(env, after)
    ensures e.EnableCall? ==> forall d: Domain :: after.jobs.At(d).loaded == before.jobs.At(d).loaded
    ensures e.DisableCall? ==> Cleared(after)
  {
    assert before.jobs.At(Login) == before.jobs.login && before.jobs.At(System) == before.jobs.system;
  }

  /** Every run of successful calls from a cleared state stays consistent, upgrades and activations included. */
  lemma {:induction false} RunIsConsistent(env: Env, events: seq<Event>, worlds: seq<World>, i: nat)
    requires IsRun(env, events, worlds) && i < |worlds|
    ensures Consistent(worlds[i])
  {
    if i > 0 {
      RunIsConsistent(env, events, worlds, i - 1);
      assert HappensAt(env, events, worlds, i - 1);
      EventKeepsConsistent(env, events[i - 1], worlds[i - 1], worlds[i]);
    }
  }

  /**
    In every run, after Enable or Start the plist is the current one; Enable loads and unloads
    nothing; after Disable nothing at all is left, whether or not it took its shortcut.
   */
  lemma CallsInRun(env: Env, events: seq<Event>, worlds: seq<World>, i: nat)
    requires IsRun(env, events, worlds) && i < |events|
    ensures events[i].EnableCall? || events[i].StartCall? ==> UpToDate(env, worlds[i + 1])
    ensures events[i].EnableCall? ==> forall d: Domain :: worlds[i + 1].jobs.At(d).loaded == worlds[i].jobs.At(d).loaded
    ensures events[i].DisableCall? ==> Cleared(worlds[i + 1])
  {
    RunIsConsistent(env, events, worlds, i);
    assert HappensAt(env, events, worlds, i);
    EventKeepsConsistent(env, events[i], worlds[i], worlds[i + 1]);
  }

  /** Within a run, a rollback without a failed step leaves everything exactly as it was. */
  lemma RollbackInRun(env: Env, events: seq<Event>, worlds: seq<World>, i: nat, after: World)
    requires IsRun(env, events, worlds) && i < |worlds| && RolledBack(env, worlds[i], after)
    ensures after == worlds[i]
  {
    RunIsConsistent(env, events, worlds, i);
    assert worlds[i].jobs.At(Login) == worlds[i].jobs.login && worlds[i].jobs.At(System) == worlds[i].jobs.system;
  }

  // ---------- Outside such runs ----------

  /** A successful Disable clears everything unless its shortcut overlooks a job loaded without a plist. */
  lemma DisableClearsExactly(before: World, after: World)
    requires Disabled(before, after)
    ensures Cleared(after) <==> !(NothingInstalled(before) && (before.jobs.login.loaded || before.jobs.system.loaded))
  {
  }

  /** The shortcut at work: a job loaded without a plist under scope none stays loaded. */
  lemma ShortcutOverlooksLoadedJob(executable: string)
    ensures var w := World(Jobs(Job(None, true), Job(None, false)), NoScope, executable);
      Disabled(w, w) && !Cleared(w)
  {
  }
}
