/**
What becomes of modules over time: the table of modules, the infrastructure services and
the cluster, moment by moment, with what was done at each moment and by which handler.
*/
module ModuleHistory {
  import opened Wrappers
  import opened ModuleDeploy
  import opened ModuleNeighbours

  datatype Status = Available | Installing | Active | Failed | Uninstalling

  /** A row of polyon_modules; `deps` are the ids that its manifest requires. */
  datatype Record = Record(status: Status, deps: seq<string>, spec: Spec)

  /** The two tables. */
  datatype State = State(modules: map<string, Record>, infra: map<string, bool>)

  predicate IsActive(s: State, id: string) {
    id in s.modules && s.modules[id].status == Active
  }

  predicate Enabled(s: State, id: string) {
    id in s.infra && s.infra[id]
  }

  /** What the dependency check looks for. */
  predicate Met(s: State, id: string) {
    Enabled(s, id) || IsActive(s, id)
  }

  // ---------- Single steps ----------

  /** A deployment says whether it succeeded. */
  datatype Cause =
    | Begin
    | SetInfra(id: string, enabled: bool)
    | Register(id: string, deps: seq<string>, spec: Spec)
    | Write(id: string, status: Status)
    | Deploy(id: string, spec: Spec, context: Context, faults: set<Call>, ok: bool)
    | Activate(id: string, deps: seq<string>)
    | Delete(id: string, faults: set<Call>)
    | Drop(id: string)

  /** An UPDATE of the status column; it affects nothing when the row is gone. */
  function WithStatus(s: State, id: string, status: Status): State {
    if id in s.modules then s.(modules := s.modules[id := s.modules[id].(status := status)]) else s
  }

  function After(s: State, c: Cause): State {
    match c
    case Begin => s
    case SetInfra(id, enabled) => s.(infra := s.infra[id := enabled])
    case Register(id, deps, spec) =>
      if id in s.modules then s else s.(modules := s.modules[id := Record(Available, deps, spec)])
    case Write(id, status) => WithStatus(s, id, status)
    case Activate(id, _) => WithStatus(s, id, Active)
    case Drop(id) => s.(modules := s.modules - {id})
    case Deploy(_, _, _, _, _) => s
    case Delete(_, _) => s
  }

  /** What a step does to the cluster. */
  ghost predicate Acts(before: Objects, c: Cause, after: Objects) {
    match c
    case Deploy(id, spec, context, faults, ok) =>
      (after, ok) == Deployed(before, id, MakePlan(id, spec, context), faults)
    case Delete(id, faults) => after == Deleted(before, id, faults)
    case _ => after == before
  }

  function Replay(s: State, causes: seq<Cause>): State {
    if causes == [] then s else After(Replay(s, causes[..|causes| - 1]), causes[|causes| - 1])
  }

  // ---------- Histories ----------

  /** Tables and cluster, what brought them about, and the handler that did it. */
  datatype Moment = Moment(state: State, objects: Objects, cause: Cause, who: nat)

  type History = seq<Moment>

  /** Step `t` was a deployment of the module, with this success. */
  ghost predicate Tried(h: History, t: int, id: string, ok: bool) {
    0 < t < |h| && h[t].cause.Deploy? && h[t].cause.id == id && h[t].cause.ok == ok
  }

  /** The requirement was met at some moment from `from` on. */
  ghost predicate MetSince(h: History, from: int, d: string) {
    exists t :: 0 <= from <= t < |h| && Met(h[t].state, d)
  }

  /** The module's row listed these requirements at moment `r`. */
  ghost predicate ListedAt(h: History, r: int, id: string, deps: seq<string>) {
    0 <= r < |h| && id in h[r].state.modules && h[r].state.modules[id].deps == deps
  }

  /**
  Handler `who` read these requirements from the module's row at moment `r`, each was met at some moment
  since, before moment `c`, and after that this handler deployed the module at step `t`.
  */
  ghost predicate FoundedAt(h: History, who: nat, id: string, deps: seq<string>, r: int, c: int, t: int) {
    0 <= r < c <= t && ListedAt(h, r, id, deps) && Tried(h, t, id, true) && h[t].who == who &&
    forall d :: d in deps ==> MetSince(h[..c], r, d)
  }

  ghost predicate Founded(h: History, who: nat, id: string, deps: seq<string>) {
    exists r, c, t :: FoundedAt(h, who, id, deps, r, c, t)
  }

  /** Only Activate makes a module active, by a handler that has seen its requirements met and then deployed it. */
  ghost predicate Allowed(h: History, c: Cause, who: nat) {
    match c
    case Begin => false
    case Write(_, status) => status != Active
    case Activate(id, deps) => Founded(h, who, id, deps)
    case _ => true
  }

  ghost predicate Follows(h: History, t: int)
    requires 0 < t < |h|
  {
    h[t].state == After(h[t - 1].state, h[t].cause) && Allowed(h[..t], h[t].cause, h[t].who)
  }

  ghost predicate Legal(h: History) {
    |h| > 0 && forall t :: 0 < t < |h| ==> Follows(h, t)
  }

  ghost predicate ActsAt(h: History, t: int)
    requires 0 < t < |h|
  {
    Acts(h[t - 1].objects, h[t].cause, h[t].objects)
  }

  /** The cluster went along: deployments and deletions did to it what they do, and nothing else changed it. */
  ghost predicate Real(h: History) {
    forall t :: 0 < t < |h| ==> ActsAt(h, t)
  }

  lemma LegalOneMore(h: History, m: Moment)
    requires Legal(h) && m.state == After(h[|h| - 1].state, m.cause) && Allowed(h, m.cause, m.who)
    ensures Legal(h + [m])
  {
    var more := h + [m];
    forall t | 0 < t < |more| ensures Follows(more, t) {
      assert more[..t] == h[..t];
      assert h[..|h|] == h;
      assert t < |h| ==> Follows(h, t);
    }
  }

  lemma RealOneMore(h: History, m: Moment)
    requires |h| > 0 && Real(h) && Acts(h[|h| - 1].objects, m.cause, m.objects)
    ensures Real(h + [m])
  {
    forall t | 0 < t < |h + [m]| ensures ActsAt(h + [m], t) {
      assert t < |h| ==> ActsAt(h, t);
    }
  }

  lemma LegalPrefix(h: History, n: nat)
    requires Legal(h) && 0 < n <= |h|
    ensures Legal(h[..n])
  {
    forall t | 0 < t < n ensures Follows(h[..n], t) {
      assert h[..n][..t] == h[..t];
      assert Follows(h, t);
    }
  }

  // ---------- The steps of one handler ----------

  /** What handler `me` did from position `from` on. */
  ghost function Mine(h: History, from: nat, me: nat): seq<Cause> {
    if |h| <= from then []
    else Mine(h[..|h| - 1], from, me) + if h[|h| - 1].who == me then [h[|h| - 1].cause] else []
  }

  ghost predicate NoneBy(h: History, from: nat, me: nat) {
    forall t :: from <= t < |h| ==> h[t].who != me
  }

  ghost predicate AllBy(h: History, from: nat, me: nat) {
    forall t :: from <= t < |h| ==> h[t].who == me
  }

  /** `more` goes on from `h`, and in what came to pass meanwhile handler `me` took these steps. */
  ghost predicate Took(h: History, more: History, me: nat, causes: seq<Cause>) {
    h <= more && Mine(more, |h|, me) == causes
  }

  lemma TookOne(h: History, m: Moment)
    ensures Took(h, h + [m], m.who, [m.cause])
  {
    assert (h + [m])[..|h|] == h;
  }

  lemma {:induction false} MineInTwoParts(more: History, from: nat, mid: nat, me: nat)
    requires from <= mid <= |more|
    ensures Mine(more, from, me) == Mine(more[..mid], from, me) + Mine(more, mid, me)
    decreases |more|
  {
    if |more| == mid {
      assert more[..mid] == more;
    } else {
      MineInTwoParts(more[..|more| - 1], from, mid, me);
      assert more[..|more| - 1][..mid] == more[..mid];
    }
  }

  lemma TookBoth(h: History, mid: History, more: History, me: nat, first: seq<Cause>, second: seq<Cause>)
    requires Took(h, mid, me, first) && Took(mid, more, me, second)
    ensures Took(h, more, me, first + second)
  {
    MineInTwoParts(more, |h|, |mid|, me);
    assert more[..|mid|] == mid;
  }

  lemma {:induction false} TookNone(h: History, more: History, me: nat)
    requires h <= more
    ensures Took(h, more, me, []) <==> NoneBy(more, |h|, me)
    decreases |more|
  {
    if |more| > |h| {
      TookNone(h, more[..|more| - 1], me);
    }
  }

  /** With nobody else at work, every step is one of the handler's own. */
  lemma {:induction false} AloneTookAll(h: History, from: nat, me: nat, t: nat)
    requires AllBy(h, from, me) && from <= t < |h|
    ensures h[t].cause in Mine(h, from, me)
    decreases |h|
  {
    if t < |h| - 1 {
      AloneTookAll(h[..|h| - 1], from, me, t);
    }
  }

  /** In full: the steps since are the handler's own, one for one. */
  lemma {:induction false} AloneSteps(h: History, from: nat, me: nat)
    requires AllBy(h, from, me) && from <= |h|
    ensures |Mine(h, from, me)| == |h| - from
    ensures forall i :: 0 <= i < |h| - from ==> Mine(h, from, me)[i] == h[from + i].cause
    decreases |h|
  {
    if |h| > from {
      var front := h[..|h| - 1];
      AloneSteps(front, from, me);
      assert h[|h| - 1].who == me;
      assert Mine(h, from, me) == Mine(front, from, me) + [h[|h| - 1].cause];
    }
  }

  /** With nobody else at work, the handler's own steps lead from the tables before to the tables after. */
  lemma {:induction false} AloneIsReplay(h: History, from: nat, me: nat)
    requires Legal(h) && 0 < from <= |h| && AllBy(h, from, me)
    ensures h[|h| - 1].state == Replay(h[from - 1].state, Mine(h, from, me))
    decreases |h|
  {
    if |h| > from {
      var front, last := h[..|h| - 1], h[|h| - 1];
      LegalPrefix(h, |h| - 1);
      AloneIsReplay(front, from, me);
      LastFollows(h);
      ReplayMore(h[from - 1].state, Mine(front, from, me), last.cause);
    }
  }

  lemma LastFollows(h: History)
    requires Legal(h) && |h| > 1
    ensures h[|h| - 1].state == After(h[|h| - 2].state, h[|h| - 1].cause)
  {
    assert Follows(h, |h| - 1);
  }

  lemma ReplayMore(s: State, causes: seq<Cause>, c: Cause)
    ensures Replay(s, causes + [c]) == After(Replay(s, causes), c)
  {
    assert (causes + [c])[..|causes|] == causes;
  }

  // ---------- What every history keeps ----------

  /** Step `u` activated the module. */
  ghost predicate ActivatedAt(h: History, u: int, id: string) {
    0 < u < |h| && h[u].cause.Activate? && h[u].cause.id == id
  }

  /** An active module was active from the beginning, or was activated and has been active since. */
  lemma {:induction false} ActiveSince(h: History, t: nat, id: string) returns (u: nat)
    requires Legal(h) && t < |h| && IsActive(h[t].state, id)
    ensures u <= t && (u == 0 || ActivatedAt(h, u, id))
    ensures forall k :: u <= k <= t ==> IsActive(h[k].state, id)
  {
    if t == 0 {
      u := 0;
    } else {
      assert Follows(h, t);
      if IsActive(h[t - 1].state, id) {
        u := ActiveSince(h, t - 1, id);
      } else {
        u := t;
      }
    }
  }

  /**
  Over every history: a module that has become active was activated by a handler that had read its row, then
  seen each requirement as an enabled service or an active module, and then deployed it, all that the module
  needs inside the cluster being there after that deployment.
  */
  lemma ActiveIsFounded(h: History, t: nat, id: string)
    requires Legal(h) && Real(h) && t < |h| && IsActive(h[t].state, id) && !IsActive(h[0].state, id)
    ensures exists u, r, c, k {:trigger FoundedAt(h[..u], h[u].who, id, h[u].cause.deps, r, c, k)} ::
      u <= t && ActivatedAt(h, u, id) && FoundedAt(h[..u], h[u].who, id, h[u].cause.deps, r, c, k) &&
      Consistent(h[k].objects, id, h[k].cause.spec)
  {
    var u := ActiveSince(h, t, id);
    assert Follows(h, u);
    var r, c, k :| FoundedAt(h[..u], h[u].who, id, h[u].cause.deps, r, c, k);
    assert Tried(h, k, id, true);
    SuccessIsConsistent(h, k, id);
  }

  lemma SuccessDeploys(h: History, k: nat, id: string)
    requires Real(h) && Tried(h, k, id, true)
    ensures
      var c := h[k].cause;
      (h[k].objects, true) == Deployed(h[k - 1].objects, id, MakePlan(id, c.spec, c.context), c.faults)
  {
    assert ActsAt(h, k);
  }

  lemma SuccessIsConsistent(h: History, k: nat, id: string)
    requires Real(h) && Tried(h, k, id, true)
    ensures Consistent(h[k].objects, id, h[k].cause.spec)
  {
    assert ActsAt(h, k);
    var c := h[k].cause;
    DeployedIsConsistent(h[k - 1].objects, id, c.spec, c.context, c.faults);
  }

  lemma {:induction false} ClusterStays(h: History, t: nat, u: nat)
    requires Real(h) && t <= u < |h|
    requires forall k :: t < k <= u ==> !h[k].cause.Deploy? && !h[k].cause.Delete?
    ensures h[u].objects == h[t].objects
    decreases u
  {
    if t < u {
      ClusterStays(h, t, u - 1);
      assert ActsAt(h, u);
    }
  }

  /** Step `t` put the module's secret into the cluster, or found it there already. */
  ghost predicate MadeSecret(h: History, t: int, id: string) {
    0 < t < |h| && h[t].cause.Deploy? && h[t].cause.id == id && CreateSecret !in h[t].cause.faults
  }

  /** Step `t` took it away. */
  ghost predicate TookSecret(h: History, t: int, id: string) {
    0 < t < |h| && h[t].cause.Delete? && h[t].cause.id == id && DeleteSecret !in h[t].cause.faults
  }

  /** The secret was there at the beginning or was made at step `t`, and has not been taken away up to step `u`. */
  ghost predicate SecretSince(h: History, t: int, u: int, id: string)
    requires |h| > 0
  {
    0 <= t <= u < |h| && ((t == 0 && SecretName(id) in h[0].objects.secrets) || MadeSecret(h, t, id)) &&
    forall k :: t < k <= u ==> !TookSecret(h, k, id)
  }

  lemma SecretStep(h: History, u: nat, id: string)
    requires Real(h) && 0 < u < |h|
    ensures SecretName(id) in h[u].objects.secrets <==>
      MadeSecret(h, u, id) || (SecretName(id) in h[u - 1].objects.secrets && !TookSecret(h, u, id))
  {
    assert ActsAt(h, u);
    match h[u].cause
    case Deploy(other, spec, context, faults, _) =>
      SecretAfterDeploy(h[u - 1].objects, id, other, MakePlan(other, spec, context), faults);
    case Delete(other, faults) => SecretAfterDelete(h[u - 1].objects, id, other, faults);
    case _ =>
  }

  /**
  Over every history, whatever other modules do: a module's secret is there exactly since it was made and not
  taken away.
  */
  lemma {:induction false} SecretIsThere(h: History, u: nat, id: string)
    requires Real(h) && u < |h|
    ensures SecretName(id) in h[u].objects.secrets <==> exists t :: SecretSince(h, t, u, id)
    decreases u
  {
    if u == 0 {
      assert SecretName(id) in h[0].objects.secrets ==> SecretSince(h, 0, 0, id);
    } else {
      var v := u - 1;
      SecretStep(h, u, id);
      SecretIsThere(h, v, id);
      if MadeSecret(h, u, id) {
        assert SecretSince(h, u, u, id);
      } else if !TookSecret(h, u, id) && SecretName(id) in h[v].objects.secrets {
        var t :| SecretSince(h, t, v, id);
        assert SecretSince(h, t, u, id);
      } else if t :| SecretSince(h, t, u, id) {
        assert SecretSince(h, t, v, id);
      }
    }
  }

  /**
  Over every history: after a deployment that got past its first step no deployment of the module succeeds
  until its secret has been deleted, whatever other modules do.
  */
  lemma RetryNeedsDeletion(h: History, t: nat, u: nat, id: string)
    requires Real(h) && MadeSecret(h, t, id) && t < u && Tried(h, u, id, true)
    ensures exists k :: t < k < u && TookSecret(h, k, id)
  {
    assert ActsAt(h, u);
    SecretIsThere(h, u - 1, id);
    assert !SecretSince(h, t, u - 1, id);
  }

  /**
  A module deployed at step `t`, in full or in part, and deleted at step `u` with no deployment or
  deletion in between leaves the cluster as it was, exactly when nothing there could be taken for its own.
  */
  lemma DeletionUndoesDeployment(h: History, t: nat, u: nat, id: string)
    requires Real(h) && 0 < t < u < |h| && h[t].cause.Deploy? && h[t].cause.id == id && h[u].cause == Delete(id, {})
    requires forall k :: t < k < u ==> !h[k].cause.Deploy? && !h[k].cause.Delete?
    ensures h[u].objects == h[t - 1].objects <==> Clear(h[t - 1].objects, id)
  {
    var c := h[t].cause;
    ClusterStays(h, t, u - 1);
    assert ActsAt(h, t) && ActsAt(h, u);
    DeleteUndoesDeploy(h[t - 1].objects, id, MakePlan(id, c.spec, c.context), c.faults);
  }

  /** What a step does to the cluster when those of module `id` are left out. */
  function WithoutStep(o: Objects, c: Cause, id: string): Objects {
    if c.Deploy? && c.id != id then Deployed(o, c.id, MakePlan(c.id, c.spec, c.context), c.faults).0
    else if c.Delete? && c.id != id then Deleted(o, c.id, c.faults)
    else o
  }

  /** The cluster at step `u` as it would be had module `id` done nothing since step `s`. */
  ghost function WithoutModule(h: History, s: nat, u: nat, id: string): Objects
    requires s <= u < |h|
    decreases u
  {
    if u == s then h[s].objects else WithoutStep(WithoutModule(h, s, u - 1, id), h[u].cause, id)
  }

  /** No other module deployed since step `s` has a claim under the module's prefix. */
  ghost predicate OthersKeepClear(h: History, s: nat, u: nat, id: string)
    requires s <= u < |h|
  {
    forall k :: s < k <= u && h[k].cause.Deploy? && h[k].cause.id != id ==>
      KeepsClear(h[k].cause.id, h[k].cause.spec.pvcs, id)
  }

  /** One step, on the cluster with the module and on the one without. */
  lemma StrippedStep(before: Objects, c: Cause, after: Objects, id: string)
    requires Acts(before, c, after) && HonestLabels(before, id)
    requires c.Deploy? && c.id != id ==> KeepsClear(c.id, c.spec.pvcs, id)
    ensures Stripped(after, id) == WithoutStep(Stripped(before, id), c, id) && HonestLabels(after, id)
  {
    match c
    case Deploy(b, spec, context, faults, _) =>
      if b == id {
        OwnStepsAreStripped(before, id, MakePlan(b, spec, context), faults);
        OwnDeploymentIsHonest(before, id, MakePlan(b, spec, context), faults);
      } else {
        DeploymentGoesItsWay(before, b, MakePlan(b, spec, context), faults, id);
      }
    case Delete(b, faults) => StrippedDeletion(before, b, faults, id);
    case _ =>
  }

  lemma StrippedDeletion(o: Objects, b: string, faults: set<Call>, id: string)
    ensures Stripped(Deleted(o, b, faults), id) ==
      if b == id then Stripped(o, id) else Deleted(Stripped(o, id), b, faults)
    ensures HonestLabels(o, id) ==> HonestLabels(Deleted(o, b, faults), id)
  {
    DeletionGoesItsWay(o, b, faults, id);
    if b == id {
      OwnDeletionIsStripped(o, id, faults);
    }
  }

  lemma {:induction false} StrippedIsWithout(h: History, s: nat, u: nat, id: string)
    requires Real(h) && s <= u < |h| && Clear(h[s].objects, id) && OthersKeepClear(h, s, u, id)
    ensures Stripped(h[u].objects, id) == WithoutModule(h, s, u, id) && HonestLabels(h[u].objects, id)
    decreases u
  {
    if u == s {
      DeletedIsSameWhenClear(h[s].objects, id);
    } else {
      StrippedIsWithout(h, s, u - 1, id);
      assert ActsAt(h, u);
      StrippedStep(h[u - 1].objects, h[u].cause, h[u].objects, id);
    }
  }

  /**
  A module that was not there at step `s` and is deleted at step `u` leaves no trace: whatever it and others
  did in between, the cluster is as if only the others had been at work, unless one of their claims bears its prefix.
  */
  lemma DeletedModuleLeavesNoTrace(h: History, s: nat, u: nat, id: string)
    requires Real(h) && s < u < |h| && Clear(h[s].objects, id) && OthersKeepClear(h, s, u, id)
    requires h[u].cause == Delete(id, {})
    ensures h[u].objects == WithoutModule(h, s, u, id)
  {
    StrippedIsWithout(h, s, u - 1, id);
    assert ActsAt(h, u);
  }

  /** What step `k` does to the cluster spares module `b`. */
  ghost predicate SparesAt(h: History, k: nat, b: string, spec: Spec)
    requires 0 < k < |h|
  {
    h[k].cause.Delete? ==> Spares(h[k - 1].objects, h[k].cause.id, b, spec, h[k].cause.faults)
  }

  lemma IntactStep(h: History, k: nat, b: string, spec: Spec)
    requires Real(h) && 0 < k < |h| && Consistent(h[k - 1].objects, b, spec)
    ensures Consistent(h[k].objects, b, spec) <==> SparesAt(h, k, b, spec)
  {
    assert ActsAt(h, k);
    match h[k].cause
    case Deploy(a, other, context, faults, _) =>
      DeploymentKeepsIntact(h[k - 1].objects, a, MakePlan(a, other, context), faults, b, spec);
    case Delete(a, faults) => DeletionKeepsIntact(h[k - 1].objects, a, b, spec, faults);
    case _ =>
  }

  /**
  Over every history a module that is intact stays so exactly as long as each deletion spares it; no deployment
  does any harm.
  */
  lemma {:induction false} StaysIntact(h: History, t: nat, u: nat, b: string, spec: Spec)
    requires Real(h) && t <= u < |h| && Consistent(h[t].objects, b, spec)
    ensures (forall k :: t <= k <= u ==> Consistent(h[k].objects, b, spec)) <==>
            (forall k :: t < k <= u ==> SparesAt(h, k, b, spec))
    decreases u
  {
    if t < u {
      StaysIntact(h, t, u - 1, b, spec);
      if Consistent(h[u - 1].objects, b, spec) {
        IntactStep(h, u, b, spec);
      }
    }
  }

  /** One of `circle` is among the requirements. */
  predicate Needs(deps: seq<string>, circle: set<string>) {
    exists d :: d in deps && d in circle
  }

  /** Every row of `circle`, there from the beginning or registered later, requires another of `circle`. */
  ghost predicate CircularRows(h: History, circle: set<string>)
    requires Legal(h)
  {
    (forall id :: id in circle && id in h[0].state.modules ==> Needs(h[0].state.modules[id].deps, circle)) &&
    (forall t :: 0 < t < |h| && h[t].cause.Register? && h[t].cause.id in circle ==> Needs(h[t].cause.deps, circle))
  }

  lemma {:induction false} RowsStayCircular(h: History, circle: set<string>, t: nat, id: string)
    requires Legal(h) && CircularRows(h, circle) && t < |h| && id in circle && id in h[t].state.modules
    ensures Needs(h[t].state.modules[id].deps, circle)
  {
    if t > 0 {
      assert Follows(h, t);
      if id in h[t - 1].state.modules {
        RowsStayCircular(h, circle, t - 1, id);
      }
    }
  }

  /** None of `circle` is active or enabled at the beginning, and no step enables one as infrastructure. */
  ghost predicate NeverProvided(h: History, circle: set<string>)
    requires Legal(h)
  {
    forall d :: d in circle ==> !Met(h[0].state, d) && forall t :: 0 < t < |h| ==> h[t].cause != SetInfra(d, true)
  }

  lemma {:induction false} NeverEnabled(h: History, circle: set<string>, t: nat, d: string)
    requires Legal(h) && NeverProvided(h, circle) && t < |h| && d in circle
    ensures !Enabled(h[t].state, d)
  {
    if t > 0 {
      NeverEnabled(h, circle, t - 1, d);
      assert Follows(h, t);
    }
  }

  ghost predicate MetBefore(h: History, u: int, d: string) {
    exists m :: 0 <= m < u <= |h| && Met(h[m].state, d)
  }

  /** An activation comes after its row was read and all that it required was met. */
  lemma ReadBefore(h: History, u: nat, id: string) returns (r: nat)
    requires Legal(h) && ActivatedAt(h, u, id)
    ensures r < u && ListedAt(h, r, id, h[u].cause.deps)
    ensures forall d :: d in h[u].cause.deps ==> MetBefore(h, u, d)
  {
    assert Follows(h, u);
    var deps := h[u].cause.deps;
    var r', c, k :| FoundedAt(h[..u], h[u].who, id, deps, r', c, k);
    r := r';
    forall d | d in deps ensures MetBefore(h, u, d) {
      assert MetSince(h[..u][..c], r, d);
      var m :| 0 <= m < c && Met(h[..u][..c][m].state, d);
      assert h[..u][..c][m] == h[m];
    }
  }

  /** Before the activation of one of them another one was active. */
  lemma AnotherBefore(h: History, circle: set<string>, u: nat, id: string) returns (m: nat, d: string)
    requires Legal(h) && CircularRows(h, circle) && NeverProvided(h, circle)
    requires ActivatedAt(h, u, id) && id in circle
    ensures m < u && d in circle && IsActive(h[m].state, d)
  {
    var r := ReadBefore(h, u, id);
    RowsStayCircular(h, circle, r, id);
    d :| d in h[u].cause.deps && d in circle;
    assert MetBefore(h, u, d);
    m :| 0 <= m < u && Met(h[m].state, d);
    NeverEnabled(h, circle, m, d);
  }

  /**
  Over every history: modules that require each other in a circle, never provided from outside
  it, are never activated.
  */
  lemma {:induction false} NoCircularActivation(h: History, circle: set<string>, t: nat, id: string)
    requires Legal(h) && CircularRows(h, circle) && NeverProvided(h, circle)
    requires t < |h| && id in circle
    ensures !IsActive(h[t].state, id)
    decreases t
  {
    if IsActive(h[t].state, id) {
      var u := ActiveSince(h, t, id);
      var m, d := AnotherBefore(h, circle, u, id);
      NoCircularActivation(h, circle, m, d);
    }
  }
}
