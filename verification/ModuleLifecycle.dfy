/**
Installing and uninstalling modules: handlers that step through the store and the
cluster, interleaved with other handlers between any two of their steps.
*/
module ModuleLifecycle {
  import opened Wrappers
  import opened GoStrings
  import opened ModuleDeploy
  import opened ModuleHistory
  import opened ModuleDetails

  /** A module of the built-in catalog. */
  datatype Entry = Entry(deps: seq<string>, spec: Spec)

  /**
  The request, and how the calls to store and cluster turn out. `unreadable` are the ids whose rows cannot be
  read.
  */
  datatype World = World(subdomain: string, pathPrefix: string, catalog: Option<Entry>, register: bool,
                         deploymentRead: bool, manifest: bool, unreadable: set<string>,
                         writeInstalling: bool, writeError: bool, writeActive: bool,
                         provision: bool, context: Context, faults: set<Call>,
                         writeUninstalling: bool, deleteRecord: bool)

  datatype Outcome =
    | NotFound | RegisterFailed | Orphaned | AlreadyInstalled | BadManifest | DependencyNotMet(dep: string)
    | StartFailed | ProvisionFailed | DeployFailed | ActivateFailed | Installed

  datatype UninstallOutcome = NoSuchModule | NotInstalled | NotStarted | NotDeleted | Uninstalled

  /** The request's choice of a subdomain or a path prefix overrides the manifest's. */
  function WithAccess(spec: Spec, subdomain: string, pathPrefix: string): Spec {
    if subdomain != "" then spec.(ingress := spec.ingress.(subdomain := subdomain, pathPrefix := ""))
    else if pathPrefix != "" then spec.(ingress := spec.ingress.(pathPrefix := pathPrefix, subdomain := ""))
    else spec
  }

  // ---------- What a handler does ----------

  /** The registration of a module that had no row. */
  function Registration(id: string, w: World, registered: bool): seq<Cause> {
    if registered && w.catalog.Some? then [Register(id, w.catalog.value.deps, w.catalog.value.spec)] else []
  }

  function Deployment(id: string, row: Record, w: World, ok: bool): Cause {
    Deploy(id, WithAccess(row.spec, w.subdomain, w.pathPrefix), w.context, w.faults, ok)
  }

  function FailureWrite(id: string, w: World): seq<Cause> {
    if w.writeError then [Write(id, Failed)] else []
  }

  /** The steps of an installation that ends this way, after `row` was read or registered. Refusals take none. */
  function InstallSteps(o: Outcome, id: string, row: Record, w: World): seq<Cause> {
    match o
    case ProvisionFailed => [Write(id, Installing)] + FailureWrite(id, w)
    case DeployFailed => [Write(id, Installing), Deployment(id, row, w, false)] + FailureWrite(id, w)
    case ActivateFailed => [Write(id, Installing), Deployment(id, row, w, true)]
    case Installed => [Write(id, Installing), Deployment(id, row, w, true), Activate(id, row.deps)]
    case _ => []
  }

  function UninstallSteps(o: UninstallOutcome, id: string, w: World): seq<Cause> {
    match o
    case NotDeleted => [Write(id, Uninstalling), Delete(id, w.faults)]
    case Uninstalled => [Write(id, Uninstalling), Delete(id, w.faults), Drop(id)]
    case _ => []
  }

  /** The outcomes that come after the checks. */
  predicate Began(o: Outcome) {
    o.ProvisionFailed? || o.DeployFailed? || o.ActivateFailed? || o.Installed?
  }

  /** What the calls must have done for each outcome. */
  predicate Explains(o: Outcome, w: World) {
    match o
    case NotFound => w.catalog.None?
    case RegisterFailed => w.catalog.Some?
    case BadManifest => !w.manifest
    case DependencyNotMet(_) => w.manifest
    case StartFailed => w.manifest && !w.writeInstalling
    case ProvisionFailed => w.manifest && w.writeInstalling && !w.provision
    case DeployFailed => w.manifest && w.writeInstalling && w.provision
    case ActivateFailed => w.manifest && w.writeInstalling && w.provision && !w.writeActive
    case Installed => w.manifest && w.writeInstalling && w.provision && w.writeActive
    case _ => true
  }

  ghost predicate IsRow(s: State, id: string, row: Record) {
    id in s.modules && s.modules[id] == row
  }

  /** From moment `r` on the requirement was seen not enabled, and then not active as a module. */
  ghost predicate SeenUnmet(h: History, r: int, d: string) {
    exists t, u :: 0 <= r <= t <= u < |h| && !Enabled(h[t].state, d) && !IsActive(h[u].state, d)
  }

  /**
  What the checks found, done between moments `r`, when the row was read, and `c`, without any
  step of the handler: for an active module, whether its deployment exists; for an installation that went on,
  each requirement was met at some moment in between.
  */
  ghost predicate Checked(h: History, r: int, c: int, me: nat, id: string, row: Record, o: Outcome, w: World) {
    0 <= r < c <= |h| && NoneBy(h[..c], r + 1, me) &&
    (row.status == Active <==> o.AlreadyInstalled? || o.Orphaned?) &&
    (row.status == Active ==>
     (o.AlreadyInstalled? <==> w.deploymentRead && AppName(id) in h[c - 1].objects.deployments)) &&
    (o.StartFailed? || Began(o) ==> forall d :: d in row.deps ==> MetSince(h[..c], r, d)) &&
    (o.DependencyNotMet? ==> o.dep in row.deps && (o.dep in w.unreadable || SeenUnmet(h[..c], r, o.dep)))
  }

  /** The steps after the first, put together again. */
  lemma InstallTails(id: string, row: Record, w: World)
    ensures InstallSteps(DeployFailed, id, row, w)[1..] == [Deployment(id, row, w, false)] + FailureWrite(id, w)
    ensures forall o :: o == ActivateFailed || o == Installed ==>
      InstallSteps(o, id, row, w)[1..] == [Deployment(id, row, w, true)] + InstallSteps(o, id, row, w)[2..]
  {
  }

  lemma MetStays(h: History, more: History, deps: seq<string>, r: int)
    requires h <= more
    ensures forall d :: d in deps && MetSince(h, r, d) ==> MetSince(more, r, d)
  {
  }

  /** The row listed these requirements at moment `r`, and between then and `c` each was met. */
  ghost predicate Ready(h: History, id: string, deps: seq<string>, r: int, c: int) {
    0 <= r < c <= |h| && ListedAt(h, r, id, deps) && forall d :: d in deps ==> MetSince(h[..c], r, d)
  }

  lemma ReadyStays(h: History, more: History, id: string, deps: seq<string>, r: int, c: int)
    requires h <= more && Ready(h, id, deps, r, c)
    ensures Ready(more, id, deps, r, c)
  {
    assert h[..c] == more[..c];
  }

  lemma ActivationIsAllowed(h: History, me: nat, id: string, deps: seq<string>, r: int, c: int, t: int)
    requires Ready(h, id, deps, r, c) && c <= t && Tried(h, t, id, true) && h[t].who == me
    ensures Allowed(h, Activate(id, deps), me)
  {
    assert FoundedAt(h, me, id, deps, r, c, t);
  }

  /** The checks of a handler that went on are not touched by what came later. */
  lemma CheckedStays(h: History, more: History, r: int, me: nat, id: string, row: Record, o: Outcome, w: World)
    requires h <= more && Checked(h, r, |h|, me, id, row, o, w)
    ensures Checked(more, r, |h|, me, id, row, o, w)
  {
    assert h[..|h|] == more[..|h|];
  }

  // ---------- The handlers ----------

  /** `me` names the handler that runs a method; `alone` says that no other handler runs meanwhile. */
  class Platform {
    var modules: map<string, Record>
    var infra: map<string, bool>
    const cluster: Client
    ghost var history: History

    ghost function Now(): State
      reads this
    {
      State(modules, infra)
    }

    /** The history is legal, the cluster went along with it, and it leads up to the present. */
    ghost predicate Valid()
      reads this, cluster
    {
      Legal(history) && Real(history) && history[|history| - 1].state == Now() &&
      history[|history| - 1].objects == cluster.objects
    }

    /** The history went on, and with nobody else at work only by this handler's steps. */
    twostate predicate WentOn(me: nat, alone: bool)
      reads this
    {
      old(history) <= history && (alone ==> AllBy(history, |old(history)|, me))
    }

    /** Exactly one step was taken. */
    twostate predicate Did(cause: Cause, me: nat)
      reads this, cluster
    {
      history == old(history) + [Moment(Now(), cluster.objects, cause, me)]
    }

    constructor (cluster: Client, infra: map<string, bool>)
      ensures Valid() && this.cluster == cluster
      ensures history == [Moment(State(map[], infra), cluster.objects, Begin, 0)]
    {
      modules, this.infra, this.cluster := map[], infra, cluster;
      history := [Moment(State(map[], infra), cluster.objects, Begin, 0)];
    }

    /** Puts the step that was just taken on record. */
    ghost method Log(cause: Cause, me: nat)
      requires Legal(history) && Real(history) && Allowed(history, cause, me)
      requires Now() == After(history[|history| - 1].state, cause) &&
        Acts(history[|history| - 1].objects, cause, cluster.objects)
      modifies `history
      ensures Valid() && Did(cause, me) && Now() == old(Now())
    {
      LegalOneMore(history, Moment(Now(), cluster.objects, cause, me));
      RealOneMore(history, Moment(Now(), cluster.objects, cause, me));
      history := history + [Moment(Now(), cluster.objects, cause, me)];
    }

    /** What a handler with nobody else at work has done to the tables since `start`. */
    lemma AloneGoesBy(me: nat, alone: bool, start: History, was: State, causes: seq<Cause>)
      requires Valid() && |start| > 0 && start[|start| - 1].state == was
      requires Took(start, history, me, causes) && (alone ==> AllBy(history, |start|, me))
      ensures alone ==> Now() == Replay(was, causes)
    {
      if alone {
        AloneIsReplay(history, |start|, me);
      }
    }

    /** A step on the cluster alone. */
    ghost method LogCluster(cause: Cause, me: nat)
      requires Legal(history) && Real(history) && (cause.Deploy? || cause.Delete?)
      requires Now() == history[|history| - 1].state && Acts(history[|history| - 1].objects, cause, cluster.objects)
      modifies `history
      ensures Valid() && Did(cause, me) && Now() == old(Now())
    {
      Log(cause, me);
    }

    /** A step on the tables alone. */
    ghost method LogTables(cause: Cause, me: nat)
      requires Legal(history) && Real(history) && Allowed(history, cause, me) && !cause.Deploy? && !cause.Delete?
      requires Now() == After(history[|history| - 1].state, cause) && cluster.objects == history[|history| - 1].objects
      modifies `history
      ensures Valid() && Did(cause, me) && Now() == old(Now())
    {
      Log(cause, me);
    }

    /** Anything that other handlers do while this one is between two steps. */
    method Others(ghost me: nat, ghost alone: bool)
      requires Valid()
      modifies this, cluster
      ensures Valid() && old(history) <= history && NoneBy(history, |old(history)|, me)
      ensures alone ==> history == old(history)
    {
    }

    /** The services are switched on and off by other handlers. */
    method EnableInfra(id: string, enabled: bool, ghost me: nat)
      requires Valid()
      modifies this
      ensures Valid() && Did(SetInfra(id, enabled), me) && Now() == After(old(Now()), SetInfra(id, enabled))
    {
      infra := infra[id := enabled];
      LogTables(SetInfra(id, enabled), me);
    }

    /** UPDATE polyon_modules SET status=... WHERE id=... */
    method SetStatus(id: string, status: Status)
      modifies `modules
      ensures Now() == WithStatus(old(Now()), id, status)
    {
      if id in modules {
        modules := modules[id := modules[id].(status := status)];
      }
    }

    method UpdateStatus(id: string, status: Status, ghost me: nat)
      requires Valid() && status != Active
      modifies this
      ensures Valid() && Did(Write(id, status), me)
    {
      SetStatus(id, status);
      LogTables(Write(id, status), me);
    }

    method UpdateAfterOthers(id: string, status: Status, ghost me: nat, ghost alone: bool)
      requires Valid() && status != Active
      modifies this, cluster
      ensures Valid() && WentOn(me, alone) && Took(old(history), history, me, [Write(id, status)])
    {
      Others(me, alone);
      TookNone(old(history), history, me);
      ghost var h := history;
      UpdateStatus(id, status, me);
      TookOne(h, history[|h|]);
      TookBoth(old(history), h, history, me, [], [Write(id, status)]);
    }

    /** The dependency loop: infrastructure first, then installed modules, each read at its own moment. */
    method CheckDependencies(deps: seq<string>, w: World, ghost me: nat, ghost alone: bool)
      returns (missing: Option<string>)
      requires Valid()
      modifies this, cluster
      ensures Valid() && WentOn(me, alone) && NoneBy(history, |old(history)|, me)
      ensures missing.None? ==> forall d :: d in deps ==> MetSince(history, |old(history)| - 1, d)
      ensures missing.Some? ==>
        missing.value in deps &&
        (missing.value in w.unreadable || SeenUnmet(history, |old(history)| - 1, missing.value))
    {
      ghost var start := |history| - 1;
      for i := 0 to |deps|
        invariant Valid() && WentOn(me, alone) && NoneBy(history, |old(history)|, me)
        invariant forall d :: d in deps[..i] ==> MetSince(history, start, d)
      {
        var dep := deps[i];
        ghost var before := history;
        assert forall d :: d in deps[..i + 1] <==> d in deps[..i] || d == dep;
        if dep !in w.unreadable && dep in infra && infra[dep] {
          assert Met(history[|history| - 1].state, dep);
          continue;
        }
        Others(me, alone);
        MetStays(before, history, deps[..i], start);
        if dep !in w.unreadable && dep in modules && modules[dep].status == Active {
          assert Met(history[|history| - 1].state, dep);
          continue;
        }
        if dep !in w.unreadable {
          assert !Enabled(history[|before| - 1].state, dep) && !IsActive(history[|history| - 1].state, dep);
        }
        return Some(dep);
      }
      assert deps[..|deps|] == deps;
      return None;
    }

    /** Finds the module's row, registering it from the catalog if there is none. */
    method FindOrRegister(id: string, w: World, ghost me: nat, ghost alone: bool)
      returns (found: Option<Record>, refusal: Outcome, registered: bool)
      requires Valid()
      modifies this, cluster
      ensures Valid() && WentOn(me, alone)
      ensures found.None? ==> (refusal.NotFound? || refusal.RegisterFailed?) && Explains(refusal, w)
      ensures found.Some? ==> id in modules && found.value == modules[id]
      ensures Took(old(history), history, me, Registration(id, w, registered))
      ensures registered ==> w.catalog.Some? && (alone ==> id !in old(modules))
      ensures id in old(modules) && id !in w.unreadable ==> found == Some(old(modules)[id]) && history == old(history)
    {
      if id in modules && id !in w.unreadable {
        return Some(modules[id]), NotFound, false;
      }
      if w.catalog.None? {
        return None, NotFound, false;
      }
      Others(me, alone);
      TookNone(old(history), history, me);
      if id in modules || !w.register {
        return None, RegisterFailed, false;
      }
      RegisterRow(id, w.catalog.value, me, old(history));
      ghost var before := history;
      Others(me, alone);
      TookNone(before, history, me);
      TookBoth(old(history), before, history, me, Registration(id, w, true), []);
      if id !in modules || id in w.unreadable {
        return None, RegisterFailed, true;
      }
      return Some(modules[id]), NotFound, true;
    }

    /** The insertion into the table, for a handler that has taken no step since `start`. */
    method RegisterRow(id: string, entry: Entry, ghost me: nat, ghost start: History)
      requires Valid() && id !in modules && Took(start, history, me, [])
      modifies this
      ensures Valid() && Did(Register(id, entry.deps, entry.spec), me)
      ensures Took(start, history, me, [Register(id, entry.deps, entry.spec)])
    {
      modules := modules[id := Record(Available, entry.deps, entry.spec)];
      LogTables(Register(id, entry.deps, entry.spec), me);
      TookOne(old(history), history[|history| - 1]);
      TookBoth(start, old(history), history, me, [], [Register(id, entry.deps, entry.spec)]);
    }

    /** installModule; `found` is the row that it went by, read at moment `r`, and `c` the end of its checks. */
    method Install(id: string, w: World, ghost me: nat, ghost alone: bool)
      returns (outcome: Outcome, registered: bool, found: Option<Record>, ghost r: nat, ghost c: nat)
      requires Valid()
      modifies this, cluster
      ensures Valid() && WentOn(me, alone) && Explains(outcome, w)
      ensures outcome.Installed? ==> w.manifest && w.writeInstalling && w.provision && w.writeActive
      ensures outcome.DeployFailed? || outcome.ActivateFailed? ==> w.manifest && w.writeInstalling && w.provision
      ensures found.None? <==> outcome.NotFound? || outcome.RegisterFailed?
      ensures Took(old(history), history, me,
                   Registration(id, w, registered) +
                   if found.Some? then InstallSteps(outcome, id, found.value, w) else [])
      ensures found.Some? ==> |old(history)| - 1 <= r && Checked(history, r, c, me, id, found.value, outcome, w)
      ensures found.Some? ==> IsRow(history[r].state, id, found.value)
      ensures id in old(modules) && id !in w.unreadable ==> found == Some(old(modules)[id])
      ensures registered ==> w.catalog.Some? && (alone ==> id !in old(modules))
      ensures alone ==>
        Now() == Replay(old(Now()), Registration(id, w, registered) +
                                    if found.Some? then InstallSteps(outcome, id, found.value, w) else [])
    {
      var refusal;
      found, refusal, registered := FindOrRegister(id, w, me, alone);
      if found.None? {
        AloneGoesBy(me, alone, old(history), old(Now()), Registration(id, w, registered));
        return refusal, registered, found, 0, 0;
      }
      ghost var read := history;
      r := |read| - 1;
      outcome, c := InstallFound(id, found.value, w, me, alone);
      TookBoth(old(history), read, history, me, Registration(id, w, registered),
               InstallSteps(outcome, id, found.value, w));
      AloneGoesBy(me, alone, old(history), old(Now()),
                  Registration(id, w, registered) + InstallSteps(outcome, id, found.value, w));
    }

    /** The part of installModule after its row was read. */
    method InstallFound(id: string, row: Record, w: World, ghost me: nat, ghost alone: bool)
      returns (outcome: Outcome, ghost c: nat)
      requires Valid() && IsRow(Now(), id, row)
      modifies this, cluster
      ensures Valid() && WentOn(me, alone) && Explains(outcome, w)
      ensures !outcome.NotFound? && !outcome.RegisterFailed?
      ensures Took(old(history), history, me, InstallSteps(outcome, id, row, w))
      ensures Checked(history, |old(history)| - 1, c, me, id, row, outcome, w)
    {
      c := |history|;
      assert history[..c] == history;
      if row.status == Active {
        var running := LooksDeployed(id, w, me, alone);
        c := |history|;
        assert history[..c] == history;
        return if running then AlreadyInstalled else Orphaned, c;
      }
      if !w.manifest {
        return BadManifest, c;
      }
      outcome, c := CheckAndCarryOut(id, row, w, me, alone);
    }

    /** The part of installModule from the dependency check on, for a module that is not active. */
    method CheckAndCarryOut(id: string, row: Record, w: World, ghost me: nat, ghost alone: bool)
      returns (outcome: Outcome, ghost c: nat)
      requires Valid() && IsRow(Now(), id, row) && row.status != Active && w.manifest
      modifies this, cluster
      ensures Valid() && WentOn(me, alone) && Explains(outcome, w)
      ensures outcome.DependencyNotMet? || outcome.StartFailed? || Began(outcome)
      ensures Took(old(history), history, me, InstallSteps(outcome, id, row, w))
      ensures Checked(history, |old(history)| - 1, c, me, id, row, outcome, w)
    {
      var missing := CheckDependencies(row.deps, w, me, alone);
      TookNone(old(history), history, me);
      ghost var checked := history;
      c := |history|;
      assert history[..c] == history;
      if missing.Some? {
        return DependencyNotMet(missing.value), c;
      }
      assert IsRow(checked[|old(history)| - 1].state, id, row);
      outcome := CarryOut(id, row, w, me, alone, |old(history)| - 1, c);
      CheckedStays(checked, history, |old(history)| - 1, me, id, row, outcome, w);
      TookBoth(old(history), checked, history, me, [], InstallSteps(outcome, id, row, w));
    }

    /** Whether the deployment of an active module is found. */
    method LooksDeployed(id: string, w: World, ghost me: nat, ghost alone: bool) returns (running: bool)
      requires Valid()
      modifies this, cluster
      ensures Valid() && WentOn(me, alone) && Took(old(history), history, me, []) && NoneBy(history, |old(history)|, me)
      ensures running == (w.deploymentRead && AppName(id) in cluster.objects.deployments)
    {
      Others(me, alone);
      TookNone(old(history), history, me);
      running := w.deploymentRead && AppName(id) in cluster.objects.deployments;
    }

    /** The part of installModule after the checks. */
    method CarryOut(id: string, row: Record, w: World, ghost me: nat, ghost alone: bool, ghost r: int, ghost c: int)
      returns (outcome: Outcome)
      requires Valid() && w.manifest && Ready(history, id, row.deps, r, c)
      modifies this, cluster
      ensures Valid() && WentOn(me, alone) && Explains(outcome, w) && (outcome.StartFailed? || Began(outcome))
      ensures Took(old(history), history, me, InstallSteps(outcome, id, row, w))
    {
      if !w.writeInstalling {
        return StartFailed;
      }
      UpdateAfterOthers(id, Installing, me, alone);
      ghost var h := history;
      if !w.provision {
        WriteFailure(id, w, me, alone);
        TookBoth(old(history), h, history, me, [Write(id, Installing)], FailureWrite(id, w));
        return ProvisionFailed;
      }
      ReadyStays(old(history), history, id, row.deps, r, c);
      outcome := DeployAndActivate(id, row, w, me, alone, r, c);
      TookBoth(old(history), h, history, me, [Write(id, Installing)], InstallSteps(outcome, id, row, w)[1..]);
    }

    /** The part of installModule from the deployment on. */
    method DeployAndActivate(id: string, row: Record, w: World, ghost me: nat, ghost alone: bool, ghost r: int,
                             ghost c: int)
      returns (outcome: Outcome)
      requires Valid() && Ready(history, id, row.deps, r, c)
      modifies this, cluster
      ensures Valid() && WentOn(me, alone)
      ensures outcome.DeployFailed? || (if w.writeActive then outcome.Installed? else outcome.ActivateFailed?)
      ensures Took(old(history), history, me, InstallSteps(outcome, id, row, w)[1..])
    {
      var ok := DeployAfterOthers(id, row, w, me, alone);
      ghost var h := history;
      ReadyStays(old(history), h, id, row.deps, r, c);
      InstallTails(id, row, w);
      if !ok {
        WriteFailure(id, w, me, alone);
        TookBoth(old(history), h, history, me, [Deployment(id, row, w, false)], FailureWrite(id, w));
        return DeployFailed;
      }
      outcome := ActivateAfterOthers(id, row, w, me, alone, r, c, |h| - 1);
      TookBoth(old(history), h, history, me, [Deployment(id, row, w, true)], InstallSteps(outcome, id, row, w)[2..]);
    }

    /** The last step, for a module whose deployment was step `t`. */
    method ActivateAfterOthers(id: string, row: Record, w: World, ghost me: nat, ghost alone: bool, ghost r: int,
                               ghost c: int, ghost t: nat)
      returns (outcome: Outcome)
      requires Valid() && Ready(history, id, row.deps, r, c)
      requires c <= t && Tried(history, t, id, true) && history[t].who == me
      modifies this, cluster
      ensures Valid() && WentOn(me, alone)
      ensures outcome == if w.writeActive then Installed else ActivateFailed
      ensures Took(old(history), history, me, InstallSteps(outcome, id, row, w)[2..])
    {
      Others(me, alone);
      TookNone(old(history), history, me);
      if !w.writeActive {
        return ActivateFailed;
      }
      ghost var h := history;
      ReadyStays(old(history), h, id, row.deps, r, c);
      ActivationIsAllowed(h, me, id, row.deps, r, c, t);
      ActivateRow(id, row.deps, me);
      TookOne(h, history[|h|]);
      TookBoth(old(history), h, history, me, [], [Activate(id, row.deps)]);
      return Installed;
    }

    /** The write of the status "active". */
    method ActivateRow(id: string, ghost deps: seq<string>, ghost me: nat)
      requires Valid() && Allowed(history, Activate(id, deps), me)
      modifies this
      ensures Valid() && Did(Activate(id, deps), me)
    {
      SetStatus(id, Active);
      LogTables(Activate(id, deps), me);
    }

    method DeployAfterOthers(id: string, row: Record, w: World, ghost me: nat, ghost alone: bool) returns (ok: bool)
      requires Valid()
      modifies this, cluster
      ensures Valid() && WentOn(me, alone) && Took(old(history), history, me, [Deployment(id, row, w, ok)])
      ensures |history| > |old(history)| && Tried(history, |history| - 1, id, ok) && history[|history| - 1].who == me
    {
      Others(me, alone);
      TookNone(old(history), history, me);
      ghost var h := history;
      ok := DeployModule(id, row, w, me);
      TookOne(h, history[|h|]);
      TookBoth(old(history), h, history, me, [], [Deployment(id, row, w, ok)]);
    }

    /** The call of DeployModule, one step of the interleaving. */
    method DeployModule(id: string, row: Record, w: World, ghost me: nat) returns (ok: bool)
      requires Valid()
      modifies this, cluster
      ensures Valid() && Did(Deployment(id, row, w, ok), me)
    {
      ok := RunDeployment(id, row, w);
      LogCluster(Deployment(id, row, w, ok), me);
    }

    method RunDeployment(id: string, row: Record, w: World) returns (ok: bool)
      modifies cluster
      ensures Acts(old(cluster.objects), Deployment(id, row, w, ok), cluster.objects)
    {
      ok := cluster.DeployModule(id, WithAccess(row.spec, w.subdomain, w.pathPrefix), w.context, w.faults);
    }

    /** The status write of a failed installation. */
    method WriteFailure(id: string, w: World, ghost me: nat, ghost alone: bool)
      requires Valid()
      modifies this, cluster
      ensures Valid() && WentOn(me, alone) && Took(old(history), history, me, FailureWrite(id, w))
    {
      if w.writeError {
        UpdateAfterOthers(id, Failed, me, alone);
      }
    }

    /** uninstallModule. Cluster and resource cleanup may fail without changing its course. */
    method Uninstall(id: string, w: World, ghost me: nat, ghost alone: bool) returns (outcome: UninstallOutcome)
      requires Valid()
      modifies this, cluster
      ensures Valid() && WentOn(me, alone) && Took(old(history), history, me, UninstallSteps(outcome, id, w))
      ensures alone ==> Now() == Replay(old(Now()), UninstallSteps(outcome, id, w))
      ensures outcome == if id !in old(modules) || id in w.unreadable then NoSuchModule
                         else if old(modules)[id].status != Active then NotInstalled
                         else if !w.writeUninstalling then NotStarted
                         else if !w.deleteRecord then NotDeleted else Uninstalled
    {
      if id !in modules || id in w.unreadable {
        return NoSuchModule;
      }
      if modules[id].status != Active {
        return NotInstalled;
      }
      outcome := Remove(id, w, me, alone);
      AloneGoesBy(me, alone, old(history), old(Now()), UninstallSteps(outcome, id, w));
    }

    /** The part of uninstallModule after the checks. */
    method Remove(id: string, w: World, ghost me: nat, ghost alone: bool) returns (outcome: UninstallOutcome)
      requires Valid()
      modifies this, cluster
      ensures outcome == if !w.writeUninstalling then NotStarted
                         else if !w.deleteRecord then NotDeleted else Uninstalled
      ensures Valid() && WentOn(me, alone) && Took(old(history), history, me, UninstallSteps(outcome, id, w))
    {
      if !w.writeUninstalling {
        return NotStarted;
      }
      UpdateAfterOthers(id, Uninstalling, me, alone);
      ghost var h := history;
      outcome := CleanUp(id, w, me, alone);
      TookBoth(old(history), h, history, me, [Write(id, Uninstalling)], UninstallSteps(outcome, id, w)[1..]);
    }

    /** The part of uninstallModule after the status write. */
    method CleanUp(id: string, w: World, ghost me: nat, ghost alone: bool) returns (outcome: UninstallOutcome)
      requires Valid()
      modifies this, cluster
      ensures outcome == if w.deleteRecord then Uninstalled else NotDeleted
      ensures Valid() && WentOn(me, alone) && Took(old(history), history, me, UninstallSteps(outcome, id, w)[1..])
    {
      Others(me, alone);
      TookNone(old(history), history, me);
      ghost var h := history;
      cluster.DeleteModule(id, w.faults);
      LogCluster(Delete(id, w.faults), me);
      TookOne(h, history[|h|]);
      TookBoth(old(history), h, history, me, [], [Delete(id, w.faults)]);
      h := history;
      outcome := DropAfterOthers(id, w, me, alone);
      TookBoth(old(history), h, history, me, [Delete(id, w.faults)], UninstallSteps(outcome, id, w)[2..]);
    }

    /** The deletion of the row. */
    method DropAfterOthers(id: string, w: World, ghost me: nat, ghost alone: bool) returns (outcome: UninstallOutcome)
      requires Valid()
      modifies this, cluster
      ensures outcome == if w.deleteRecord then Uninstalled else NotDeleted
      ensures Valid() && WentOn(me, alone) && Took(old(history), history, me, UninstallSteps(outcome, id, w)[2..])
    {
      Others(me, alone);
      TookNone(old(history), history, me);
      if !w.deleteRecord {
        return NotDeleted;
      }
      ghost var h := history;
      modules := modules - {id};
      LogTables(Drop(id), me);
      TookOne(h, history[|h|]);
      TookBoth(old(history), h, history, me, [], [Drop(id)]);
      return Uninstalled;
    }
  }

  // ---------- A handler with nobody else at work ----------

  /** The status in which an installation leaves a row that had status `was`. */
  function LeftStatus(o: Outcome, w: World, was: Status): Status {
    match o
    case Installed => Active
    case ActivateFailed => Installing
    case ProvisionFailed => if w.writeError then Failed else Installing
    case DeployFailed => if w.writeError then Failed else Installing
    case _ => was
  }

  /**
  The tables that a lone installation leaves: a refused one changes no row, a failed one ends in error, and no
  other row is touched.
  */
  lemma InstallAlone(s: State, id: string, row: Record, w: World, registered: bool, o: Outcome)
    requires registered ==> w.catalog.Some? && id !in s.modules
    ensures
      var t := Replay(s, Registration(id, w, registered) + InstallSteps(o, id, row, w));
      t.infra == s.infra && t.modules - {id} == s.modules - {id} &&
      (id in t.modules <==> registered || id in s.modules) &&
      (id in t.modules ==>
       t.modules[id].deps == (if registered then w.catalog.value.deps else s.modules[id].deps) &&
       t.modules[id].spec == (if registered then w.catalog.value.spec else s.modules[id].spec) &&
       t.modules[id].status ==
       if o.Installed? then Active
       else if (o.ProvisionFailed? || o.DeployFailed?) && w.writeError then Failed
       else if Began(o) then Installing
       else if registered then Available else s.modules[id].status)
  {
    var start := Registration(id, w, registered);
    ReplayRegistration(s, id, w, registered);
    ReplaySteps(Replay(s, start), id, row, w, o);
    ReplayBoth(s, start, InstallSteps(o, id, row, w));
    var found := Replay(s, start);
    if registered {
      PutIsRemoved(s.modules, id, found.modules[id]);
    }
    if id in found.modules {
      PutIsRemoved(found.modules, id, found.modules[id].(status := LeftStatus(o, w, found.modules[id].status)));
    }
  }

  lemma ReplayRegistration(s: State, id: string, w: World, registered: bool)
    requires registered ==> w.catalog.Some? && id !in s.modules
    ensures
      Replay(s, Registration(id, w, registered)) ==
      if !registered then s
      else s.(modules := s.modules[id := Record(Available, w.catalog.value.deps, w.catalog.value.spec)])
  {
    if registered {
      ReplayThree(s, Registration(id, w, true)[0], Begin, Begin);
    }
  }

  lemma {:induction false} ReplayBoth(s: State, first: seq<Cause>, second: seq<Cause>)
    ensures Replay(s, first + second) == Replay(Replay(s, first), second)
    decreases |second|
  {
    if second == [] {
      assert first + second == first;
    } else {
      var front, last := second[..|second| - 1], second[|second| - 1];
      ReplayBoth(s, first, front);
      ReplayMore(s, first + front, last);
      assert first + second == (first + front) + [last];
    }
  }

  /** Steps that set the status of one row, one after the other, and otherwise touch only the cluster. */
  lemma ReplaySteps(s: State, id: string, row: Record, w: World, o: Outcome)
    ensures Replay(s, InstallSteps(o, id, row, w)) ==
      if id in s.modules then WithStatus(s, id, LeftStatus(o, w, s.modules[id].status)) else s
  {
    var start, ok, bad := Write(id, Installing), Deployment(id, row, w, true), Deployment(id, row, w, false);
    match o
    case Installed =>
      ReplayThree(s, start, ok, Activate(id, row.deps));
      LastStatusStays(s, id, Installing, Active);
    case ActivateFailed => ReplayThree(s, start, ok, ok);
    case ProvisionFailed =>
      ReplayThree(s, start, bad, bad);
      ReplayFailure(s, id, [start], w);
    case DeployFailed =>
      ReplayThree(s, start, bad, bad);
      ReplayFailure(s, id, [start, bad], w);
    case _ =>
  }

  lemma ReplayFailure(s: State, id: string, steps: seq<Cause>, w: World)
    requires Replay(s, steps) == WithStatus(s, id, Installing)
    ensures Replay(s, steps + FailureWrite(id, w)) == WithStatus(s, id, if w.writeError then Failed else Installing)
  {
    if w.writeError {
      ReplayMore(s, steps, Write(id, Failed));
      LastStatusStays(s, id, Installing, Failed);
    } else {
      assert steps + [] == steps;
    }
  }

  lemma LastStatusStays(s: State, id: string, first: Status, last: Status)
    ensures WithStatus(WithStatus(s, id, first), id, last) == WithStatus(s, id, last)
  {
    if id in s.modules {
      var row := s.modules[id];
      assert s.modules[id := row.(status := first)][id := row.(status := last)] ==
        s.modules[id := row.(status := last)];
    }
  }

  lemma ReplayThree(s: State, a: Cause, b: Cause, c: Cause)
    ensures Replay(s, [a]) == After(s, a)
    ensures Replay(s, [a, b]) == After(After(s, a), b)
    ensures Replay(s, [a, b, c]) == After(After(After(s, a), b), c)
  {
    assert [a] == [] + [a] && [a, b] == [a] + [b] && [a, b, c] == [a, b] + [c];
    ReplayMore(s, [], a);
    ReplayMore(s, [a], b);
    ReplayMore(s, [a, b], c);
  }

  /** The rows that a lone uninstallation leaves. */
  lemma UninstallAlone(s: State, id: string, w: World, o: UninstallOutcome)
    ensures Replay(s, UninstallSteps(o, id, w)) ==
      if o.Uninstalled? then s.(modules := s.modules - {id})
      else if o.NotDeleted? then WithStatus(s, id, Uninstalling) else s
  {
    ReplayThree(s, Write(id, Uninstalling), Delete(id, w.faults), Drop(id));
    assert WithStatus(s, id, Uninstalling).modules - {id} == s.modules - {id};
  }

  /** A lone handler's checks all see the one state in which it read the row. */
  lemma AloneChecksAtOnce(h: History, from: nat, r: int, c: int, me: nat, id: string, row: Record, o: Outcome, w: World)
    requires AllBy(h, from, me) && from - 1 <= r && Checked(h, r, c, me, id, row, o, w)
    ensures o.StartFailed? || Began(o) ==> forall d :: d in row.deps ==> Met(h[r].state, d)
    ensures o.DependencyNotMet? ==> o.dep in row.deps && (o.dep in w.unreadable || !Met(h[r].state, o.dep))
  {
    var k := if c > r + 1 then r + 1 else r;
    assert h[..c][k] == h[k];
  }

  /**
  Where a lone installation that succeeded stands in the history: start, deployment and activation are its last
  steps.
  */
  lemma LoneInstallSteps(h: History, more: History, me: nat, id: string, row: Record, w: World, registered: bool)
    requires AllBy(more, |h|, me)
    requires Took(h, more, me, Registration(id, w, registered) + InstallSteps(Installed, id, row, w))
    ensures
      var n := |more|;
      n >= |h| + 3 && more[n - 3].cause == Write(id, Installing) && more[n - 2].cause == Deployment(id, row, w, true) &&
      more[n - 1].cause == Activate(id, row.deps)
    ensures forall t :: |h| <= t < |more| - 2 ==> !more[t].cause.Deploy? && !more[t].cause.Delete?
  {
    var n, k := |more|, |Registration(id, w, registered)|;
    AloneSteps(more, |h|, me);
    var steps := Mine(more, |h|, me);
    assert n == |h| + k + 3 && steps[k] == Write(id, Installing);
    assert steps[k + 1] == Deployment(id, row, w, true) && steps[k + 2] == Activate(id, row.deps);
    assert more[|h| + k].cause == steps[k];
    assert more[|h| + (k + 1)].cause == steps[k + 1];
    assert more[|h| + (k + 2)].cause == steps[k + 2];
    forall t | |h| <= t < n - 2 ensures !more[t].cause.Deploy? && !more[t].cause.Delete? {
      assert more[|h| + (t - |h|)].cause == steps[t - |h|];
    }
  }

  /** A lone installation that succeeds leaves the cluster that its deployment makes of the one before. */
  lemma LoneInstallDeploys(h: History, more: History, me: nat, id: string, row: Record, w: World, registered: bool)
    requires Real(more) && |h| > 0 && AllBy(more, |h|, me)
    requires Took(h, more, me, Registration(id, w, registered) + InstallSteps(Installed, id, row, w))
    ensures
      (more[|more| - 1].objects, true) ==
      Deployed(h[|h| - 1].objects, id, MakePlan(id, WithAccess(row.spec, w.subdomain, w.pathPrefix), w.context),
               w.faults)
  {
    var n := |more|;
    LoneInstallSteps(h, more, me, id, row, w, registered);
    ClusterStays(more, |h| - 1, n - 3);
    ClusterStays(more, n - 2, n - 1);
    assert more[|h| - 1] == h[|h| - 1];
    SuccessDeploys(more, n - 2, id);
  }

  /** While it deploys, its row shows "installing". */
  lemma LoneInstallShows(h: History, more: History, me: nat, id: string, row: Record, w: World, registered: bool)
    requires Legal(more) && |h| > 0 && AllBy(more, |h|, me)
    requires Took(h, more, me, Registration(id, w, registered) + InstallSteps(Installed, id, row, w))
    ensures
      var t := |more| - 2;
      0 < t && Tried(more, t, id, true) &&
      (id in more[t].state.modules ==> more[t].state.modules[id].status == Installing)
  {
    LoneInstallSteps(h, more, me, id, row, w, registered);
    assert Follows(more, |more| - 3) && Follows(more, |more| - 2);
  }

  /** After a lone installation that succeeds all that the module needs inside the cluster is there. */
  lemma LoneInstallIsIntact(h: History, more: History, me: nat, id: string, row: Record, w: World, registered: bool)
    requires Real(more) && |h| > 0 && AllBy(more, |h|, me)
    requires Took(h, more, me, Registration(id, w, registered) + InstallSteps(Installed, id, row, w))
    ensures Consistent(more[|more| - 1].objects, id, WithAccess(row.spec, w.subdomain, w.pathPrefix))
  {
    LoneInstallDeploys(h, more, me, id, row, w, registered);
    DeployedIsConsistent(h[|h| - 1].objects, id, WithAccess(row.spec, w.subdomain, w.pathPrefix), w.context, w.faults);
  }

  /**
  The address of a module after a lone installation that succeeds: the subdomain asked for under the base domain,
  or else the path asked for under the portal's domain, or else what the module's own specification says.
  */
  lemma LoneInstallAddress(h: History, more: History, me: nat, id: string, row: Record, w: World, registered: bool)
    requires Real(more) && |h| > 0 && AllBy(more, |h|, me)
    requires Took(h, more, me, Registration(id, w, registered) + InstallSteps(Installed, id, row, w))
    ensures
      var before, after, n := h[|h| - 1].objects.ingresses, more[|more| - 1].objects.ingresses, "polyon-" + id;
      var domain := if w.context.domain == "" then "cmars.com" else ToLower(w.context.domain);
      var portal := if w.context.portalDomain == "" then "portal." + domain else w.context.portalDomain;
      var own := row.spec.ingress;
      if w.subdomain != "" then
        n in after && after[n].host == w.subdomain + "." + domain && after[n].path == "/"
      else if w.pathPrefix != "" then
        n in after && after[n].host == portal && after[n].path == w.pathPrefix
      else if own.subdomain != "" then
        n in after && after[n].host == own.subdomain + "." + domain && after[n].path == "/"
      else if own.pathPrefix != "" then
        n in after && after[n].host == portal && after[n].path == own.pathPrefix
      else after == before
  {
    var spec := WithAccess(row.spec, w.subdomain, w.pathPrefix);
    LoneInstallDeploys(h, more, me, id, row, w, registered);
    IngressAsSpecified(h[|h| - 1].objects, id, spec, w.context, w.faults);
  }

  /** And the module runs as its own specification says, with the credentials that were resolved for it. */
  lemma LoneInstallRuns(h: History, more: History, me: nat, id: string, row: Record, w: World, registered: bool,
                        k: string, v: string)
    requires Real(more) && |h| > 0 && AllBy(more, |h|, me)
    requires Took(h, more, me, Registration(id, w, registered) + InstallSteps(Installed, id, row, w))
    ensures
      var d, n := more[|more| - 1].objects, "polyon-" + id;
      (if row.spec.statefulSet then n in d.statefulSets else n in d.deployments) &&
      PodIs((if row.spec.statefulSet then d.statefulSets[n] else d.deployments[n]).template, id, row.spec)
    ensures
      var d := more[|more| - 1].objects;
      "polyon-module-" + id in d.secrets &&
      (Has(w.context.prcEnv, k, v) ==> Has(d.secrets["polyon-module-" + id].data, k, v))
  {
    var spec := WithAccess(row.spec, w.subdomain, w.pathPrefix);
    LoneInstallDeploys(h, more, me, id, row, w, registered);
    DeployedAsSpecified(h[|h| - 1].objects, id, spec, w.context, w.faults);
    SecretAsSpecified(h[|h| - 1].objects, id, spec, w.context, w.faults, k, v);
    AccessIsAll(row.spec, w.subdomain, w.pathPrefix);
  }

  lemma AccessIsAll(spec: Spec, subdomain: string, pathPrefix: string)
    ensures var s := WithAccess(spec, subdomain, pathPrefix); s.(ingress := spec.ingress) == spec
  {
  }

  /**
  A lone uninstallation deletes the module's objects, and with no failing call leaves nothing that could be
  taken for its own.
  */
  lemma LoneUninstallClears(h: History, more: History, me: nat, id: string, w: World, o: UninstallOutcome)
    requires Real(more) && |h| > 0 && AllBy(more, |h|, me)
    requires Took(h, more, me, UninstallSteps(o, id, w)) && (o.NotDeleted? || o.Uninstalled?)
    ensures more[|more| - 1].objects == Deleted(h[|h| - 1].objects, id, w.faults)
    ensures w.faults == {} ==> Clear(more[|more| - 1].objects, id)
  {
    AloneSteps(more, |h|, me);
    var steps := Mine(more, |h|, me);
    assert more[|h| + 0].cause == steps[0] && more[|h| + 1].cause == steps[1];
    assert o.Uninstalled? ==> more[|h| + 2].cause == steps[2];
    assert ActsAt(more, |h|) && ActsAt(more, |h| + 1);
    assert o.Uninstalled? ==> ActsAt(more, |h| + 2);
    assert more[|h| - 1] == h[|h| - 1];
  }

  /**
  A lone installation goes on without providing a module of a circle from outside, if the catalog keeps to the
  circle.
  */
  lemma InstallKeepsCircle(h: History, more: History, me: nat, id: string, row: Option<Record>, w: World,
                           registered: bool, o: Outcome, circle: set<string>)
    requires Legal(h) && Legal(more) && NeverProvided(h, circle) && CircularRows(h, circle)
    requires AllBy(more, |h|, me)
    requires Took(h, more, me,
                  Registration(id, w, registered) + if row.Some? then InstallSteps(o, id, row.value, w) else [])
    requires w.catalog.Some? && id in circle ==> Needs(w.catalog.value.deps, circle)
    ensures NeverProvided(more, circle) && CircularRows(more, circle)
  {
    forall t | |h| <= t < |more|
      ensures !more[t].cause.SetInfra? && (more[t].cause.Register? ==> Registers(more[t].cause, id, w))
    {
      AloneTookAll(more, |h|, me, t);
      OwnSteps(id, row, w, registered, o, more[t].cause);
    }
    assert more[0] == h[0];
  }

  predicate Registers(c: Cause, id: string, w: World) {
    c.Register? && w.catalog.Some? && c.id == id && c.deps == w.catalog.value.deps
  }

  /** An installation never switches infrastructure, and registers only its module, from the catalog. */
  lemma OwnSteps(id: string, row: Option<Record>, w: World, registered: bool, o: Outcome, c: Cause)
    requires c in Registration(id, w, registered) + if row.Some? then InstallSteps(o, id, row.value, w) else []
    ensures !c.SetInfra? && (c.Register? ==> Registers(c, id, w))
  {
  }

  /** Every active module has its requirements met right now. */
  ghost predicate Closed(s: State) {
    forall id, d :: IsActive(s, id) && d in s.modules[id].deps ==> Met(s, d)
  }

  /**
  Uninstalling does not look for modules that need the one it removes: requirements stay
  met exactly when no other active module depends on it as a module.
  */
  lemma UninstallKeepsClosed(s: State, id: string, w: World)
    requires Closed(s)
    ensures Closed(Replay(s, UninstallSteps(Uninstalled, id, w))) <==>
      Enabled(s, id) || forall k :: IsActive(s, k) && k != id ==> id !in s.modules[k].deps
  {
    var after := s.(modules := s.modules - {id});
    UninstallAlone(s, id, w, Uninstalled);
    assert forall k :: IsActive(after, k) <==> IsActive(s, k) && k != id;
    if k :| IsActive(s, k) && k != id && id in s.modules[k].deps && !Enabled(s, id) {
      assert IsActive(after, k) && id in after.modules[k].deps && !Met(after, id);
    } else {
      forall k, d | IsActive(after, k) && d in after.modules[k].deps ensures Met(after, d) {
        assert IsActive(s, k) && d in s.modules[k].deps && Met(s, d);
      }
    }
  }

  /** Installing a module whose requirements are met keeps everybody's requirements met. */
  lemma InstallKeepsClosed(s: State, id: string, row: Record, w: World)
    requires Closed(s) && IsRow(s, id, row) && forall d :: d in row.deps ==> Met(s, d)
    ensures Closed(Replay(s, InstallSteps(Installed, id, row, w)))
  {
    var after := WithStatus(s, id, Active);
    ReplaySteps(s, id, row, w, Installed);
    forall k, d | IsActive(after, k) && d in after.modules[k].deps ensures Met(after, d) {
      assert Met(s, d);
    }
  }
}
