/**
Modules side by side in one cluster: which claims two modules get mixed up over, when a
module stays intact while others come and go, and what a deleted module leaves behind.
*/
module ModuleNeighbours {
  import opened Wrappers
  import opened GoStrings
  import opened ModuleDeploy

  // ---------- Claim names that meet ----------

  /** `x` goes on from `y` after a hyphen. */
  predicate Extends(x: string, y: string) {
    HasPrefix(x, y + "-")
  }

  function Rest(x: string, y: string): string
    requires Extends(x, y)
  {
    x[|y| + 1..]
  }

  lemma ExtensionIs(x: string, y: string)
    requires Extends(x, y)
    ensures x == y + "-" + Rest(x, y)
  {
  }

  /**
  A hyphenated name goes on from another one exactly when one of the two first parts goes on from the other
  accordingly.
  */
  lemma HyphensMeet(a: string, b: string, p: string)
    ensures Extends(b + "-" + p, a) <==> a == b || Extends(b, a) || (Extends(a, b) && Extends(p, Rest(a, b)))
  {
    var x, y := b + "-" + p, a + "-";
    if |a| < |b| {
      assert x[..|y|] == b[..|y|];
    } else if |a| == |b| {
      assert x[..|y|] == b + "-" && y[..|b|] == a;
    } else {
      LongerMeets(a, b, p);
    }
  }

  lemma LongerMeets(a: string, b: string, p: string)
    requires |a| > |b|
    ensures Extends(b + "-" + p, a) <==> Extends(a, b) && Extends(p, Rest(a, b))
  {
    var x, y, n := b + "-" + p, a + "-", |b| + 1;
    assert x[..n] == b + "-" && x[n..] == p;
    if Extends(a, b) {
      ExtensionIs(a, b);
      assert y == b + "-" + (Rest(a, b) + "-");
      assert y[n..] == Rest(a, b) + "-" && y[..n] == b + "-";
    }
    if y <= x {
      assert a[..n] == x[..n];
      assert y[n..] <= x[n..];
    }
  }

  /**
  Deleting module `a` sweeps by name a claim of module `b` exactly when the id of `b` goes on from that of `a`,
  or the id of `a` from that of `b` and the claim's name from the rest of it.
  */
  lemma ClaimIsSweptWhen(a: string, b: string, p: string)
    requires a != b
    ensures HasClaimPrefix(ClaimName(b, p), a) <==>
      Extends(b, a) || (Extends(a, b) && Extends(p, Rest(a, b)) && p != Rest(a, b) + "-")
  {
    var name, x, prefix := ClaimName(b, p), b + "-" + p, ClaimPrefix(a);
    assert name == "polyon-" + x && prefix == "polyon-" + (a + "-");
    assert name[|"polyon-"|..] == x && prefix[|"polyon-"|..] == a + "-";
    assert prefix <= name <==> a + "-" <= x;
    HyphensMeet(a, b, p);
    if Extends(a, b) {
      ExtensionIs(a, b);
    }
  }

  /** Two modules share a claim exactly when one id goes on from the other and the claim names make up for it. */
  lemma ClaimIsSharedWhen(a: string, p: string, b: string, q: string)
    ensures ClaimName(a, p) == ClaimName(b, q) <==>
      (a == b && p == q) || (Extends(b, a) && p == Rest(b, a) + "-" + q) || (Extends(a, b) && q == Rest(a, b) + "-" + p)
  {
    assert ClaimName(a, p) == "polyon-" + (a + "-" + p) && ClaimName(b, q) == "polyon-" + (b + "-" + q);
    assert ClaimName(a, p)[|"polyon-"|..] == a + "-" + p && ClaimName(b, q)[|"polyon-"|..] == b + "-" + q;
    SameHyphened(a, p, b, q);
  }

  lemma SameHyphened(a: string, p: string, b: string, q: string)
    ensures a + "-" + p == b + "-" + q <==>
      (a == b && p == q) || (Extends(b, a) && p == Rest(b, a) + "-" + q) || (Extends(a, b) && q == Rest(a, b) + "-" + p)
  {
    if |a| == |b| {
      assert (a + "-" + p)[..|a|] == a && (b + "-" + q)[..|b|] == b;
      assert (a + "-" + p)[|a| + 1..] == p && (b + "-" + q)[|b| + 1..] == q;
    } else if |a| < |b| {
      ShorterHyphened(a, p, b, q);
    } else {
      ShorterHyphened(b, q, a, p);
    }
  }

  lemma ShorterHyphened(a: string, p: string, b: string, q: string)
    requires |a| < |b|
    ensures a + "-" + p == b + "-" + q <==> Extends(b, a) && p == Rest(b, a) + "-" + q
  {
    var x, y, n := a + "-" + p, b + "-" + q, |a| + 1;
    assert x[..n] == a + "-" && x[n..] == p && y[..n] == b[..n];
    assert y[n..] == b[n..] + "-" + q;
    assert x == x[..n] + x[n..] && y == y[..n] + y[n..];
  }

  // ---------- Staying intact ----------

  lemma VolumesResolveWhen(o: Objects, id: string, spec: Spec)
    ensures VolumesResolve(o, PodTemplate(id, spec)) <==>
      forall i :: 0 <= i < |spec.pvcs| ==> ClaimName(id, spec.pvcs[i].name) in o.claims
  {
    var pod := PodTemplate(id, spec);
    if forall i :: 0 <= i < |spec.pvcs| ==> ClaimName(id, spec.pvcs[i].name) in o.claims {
      VolumesOfTemplateResolve(o, id, spec);
    } else if VolumesResolve(o, pod) {
      forall i | 0 <= i < |spec.pvcs| ensures ClaimName(id, spec.pvcs[i].name) in o.claims {
        assert pod.mounts[i] in pod.mounts;
        var v :| v in pod.volumes && v.name == pod.mounts[i].volume && v.claim in o.claims;
      }
      assert false;
    }
  }

  /**
  Deleting `a` takes nothing that `b` needs: no claim of `b`, and, for `b` itself, nothing else because each
  call fails.
  */
  predicate Spares(o: Objects, a: string, b: string, spec: Spec, faults: set<Call>) {
    (a == b ==>
      DeleteSecret in faults && DeleteService in faults &&
      (if spec.statefulSet then DeleteStatefulSet else DeleteDeployment) in faults &&
      (WantsIngress(spec) ==> DeleteIngress in faults)) &&
    forall i :: 0 <= i < |spec.pvcs| && ClaimName(b, spec.pvcs[i].name) in o.claims ==>
      !Swept(ClaimName(b, spec.pvcs[i].name), o.claims[ClaimName(b, spec.pvcs[i].name)], a, faults)
  }

  /** A module stays intact when another one, or it itself, is deleted, exactly when the deletion spares it. */
  lemma DeletionKeepsIntact(o: Objects, a: string, b: string, spec: Spec, faults: set<Call>)
    requires Consistent(o, b, spec)
    ensures Consistent(Deleted(o, a, faults), b, spec) <==> Spares(o, a, b, spec, faults)
  {
    NamesAreInjective(a, b);
    VolumesResolveWhen(o, b, spec);
    VolumesResolveWhen(Deleted(o, a, faults), b, spec);
  }

  /** Deploying never harms a module that is intact, not even deploying it again. */
  lemma DeploymentKeepsIntact(o: Objects, a: string, p: Plan, faults: set<Call>, b: string, spec: Spec)
    requires Consistent(o, b, spec)
    ensures Consistent(Deployed(o, a, p, faults).0, b, spec)
  {
    NamesAreInjective(a, b);
    DeployAdds(o, a, p, faults);
    VolumesResolveWhen(o, b, spec);
    VolumesResolveWhen(Deployed(o, a, p, faults).0, b, spec);
    if a != b {
      AddsKeepsIntact(o, Deployed(o, a, p, faults).0, a, b, spec);
    }
  }

  lemma AddsKeepsIntact(o: Objects, d: Objects, a: string, b: string, spec: Spec)
    requires a != b && Adds(o, d, a) && Consistent(o, b, spec) && VolumesResolve(d, PodTemplate(b, spec))
    ensures Consistent(d, b, spec)
  {
    NamesAreInjective(a, b);
    OthersStay(o.secrets, d.secrets, SecretName(a), SecretName(b));
    OthersStay(o.services, d.services, AppName(a), AppName(b));
    OthersStay(o.deployments, d.deployments, AppName(a), AppName(b));
    OthersStay(o.statefulSets, d.statefulSets, AppName(a), AppName(b));
    OthersStay(o.ingresses, d.ingresses, AppName(a), AppName(b));
  }

  lemma OthersStay<T>(m: map<string, T>, n: map<string, T>, a: string, b: string)
    requires m - {a} == n - {a} && a != b
    ensures (b in m <==> b in n) && (b in m ==> m[b] == n[b])
  {
    assert b in m - {a} <==> b in m;
    assert b in n - {a} <==> b in n;
    assert b in m ==> (m - {a})[b] == m[b];
    assert b in n ==> (n - {a})[b] == n[b];
  }

  /**
  With claims of its own a module survives the deletion of another exactly when no claim of it has the other's
  prefix.
  */
  lemma OwnClaimsAreSpared(o: Objects, a: string, b: string, spec: Spec)
    requires a != b && Consistent(o, b, spec)
    requires forall i :: 0 <= i < |spec.pvcs| && ClaimName(b, spec.pvcs[i].name) in o.claims ==>
      HasLabel(o.claims[ClaimName(b, spec.pvcs[i].name)], b)
    ensures Consistent(Deleted(o, a, {}), b, spec) <==>
      forall i :: 0 <= i < |spec.pvcs| ==> !HasClaimPrefix(ClaimName(b, spec.pvcs[i].name), a)
  {
    VolumesResolveWhen(o, b, spec);
    DeletionKeepsIntact(o, a, b, spec, {});
  }

  // ---------- Leaving no trace ----------

  /** The cluster with all that deleting the module takes. */
  function Stripped(o: Objects, id: string): Objects {
    Deleted(o, id, {})
  }

  /** Claims under the module's label bear its prefix. */
  ghost predicate HonestLabels(o: Objects, id: string) {
    forall n :: n in o.claims && HasLabel(o.claims[n], id) ==> HasPrefix(n, ClaimPrefix(id))
  }

  /** No claim of the plan falls under the prefix of module `id`. */
  predicate KeepsClear(b: string, pvcs: seq<PvcSpec>, id: string) {
    forall p :: p in pvcs ==> !HasPrefix(ClaimName(b, p.name), ClaimPrefix(id))
  }

  lemma {:induction false} ClaimsGoTheirWay(claims: map<string, Claim>, b: string, pvcs: seq<PvcSpec>,
                                            faults: set<Call>, id: string)
    requires b != id && KeepsClear(b, pvcs, id)
    requires forall n :: n in claims && HasLabel(claims[n], id) ==> HasPrefix(n, ClaimPrefix(id))
    ensures
      var (with, ok) := WithClaims(claims, b, pvcs, faults);
      WithClaims(Unswept(claims, id, {}), b, pvcs, faults) == (Unswept(with, id, {}), ok) &&
      forall n :: n in with && HasLabel(with[n], id) ==> HasPrefix(n, ClaimPrefix(id))
    decreases |pvcs|
  {
    if pvcs != [] {
      var name := ClaimName(b, pvcs[0].name);
      assert pvcs[0] in pvcs;
      if !(pvcs[0].quantity.None? || CreateClaim(name) in faults) {
        var claim := Claim(ModuleLabels(b), pvcs[0].quantity.value);
        var more := if name in claims then claims else claims[name := claim];
        assert Unswept(claims[name := claim], id, {}) == Unswept(claims, id, {})[name := claim];
        ClaimsGoTheirWay(more, b, pvcs[1..], faults, id);
      }
    }
  }

  lemma PutPastRemoved<T>(m: map<string, T>, n: string, x: T, k: string)
    requires n != k
    ensures m[n := x] - {k} == (m - {k})[n := x]
    ensures n in m - {k} <==> n in m
  {
  }

  lemma AddedWorkloadIsKept(o: Objects, b: string, p: Plan, id: string)
    requires b != id
    ensures Stripped(AddWorkload(o, b, p), id) == AddWorkload(Stripped(o, id), b, p)
    ensures WorkloadExists(Stripped(o, id), b, p.statefulSet) <==> WorkloadExists(o, b, p.statefulSet)
  {
    NamesAreInjective(b, id);
    PutPastRemoved(o.deployments, AppName(b), p.workload, AppName(id));
    PutPastRemoved(o.statefulSets, AppName(b), p.workload, AppName(id));
  }

  lemma AddedIngressIsKept(o: Objects, b: string, ingress: Ingress, id: string)
    requires b != id
    ensures
      var added := o.(ingresses := o.ingresses[AppName(b) := ingress]);
      Stripped(added, id) == Stripped(o, id).(ingresses := Stripped(o, id).ingresses[AppName(b) := ingress])
    ensures AppName(b) in Stripped(o, id).ingresses <==> AppName(b) in o.ingresses
  {
    NamesAreInjective(b, id);
    PutPastRemoved(o.ingresses, AppName(b), ingress, AppName(id));
  }

  lemma WorkloadGoesItsWay(o: Objects, b: string, p: Plan, faults: set<Call>, id: string)
    requires b != id
    ensures
      var (d, ok) := WithWorkload(o, b, p, faults);
      WithWorkload(Stripped(o, id), b, p, faults) == (Stripped(d, id), ok)
  {
    AddedWorkloadIsKept(o, b, p, id);
    if p.ingress.Some? {
      AddedIngressIsKept(AddWorkload(o, b, p), b, p.ingress.value, id);
    }
  }

  lemma CarryingOnGoesItsWay(o: Objects, b: string, p: Plan, faults: set<Call>, id: string)
    requires b != id
    ensures
      var (d, ok) := CarriedOn(o, b, p, faults);
      CarriedOn(Stripped(o, id), b, p, faults) == (Stripped(d, id), ok)
  {
    NamesAreInjective(b, id);
    var next := o.(services := o.services[AppName(b) := p.service]);
    PutPastRemoved(o.services, AppName(b), p.service, AppName(id));
    assert Stripped(next, id) == Stripped(o, id).(services := Stripped(o, id).services[AppName(b) := p.service]);
    WorkloadGoesItsWay(next, b, p, faults, id);
  }

  /** Deploying another module takes its course as if module `id` had been deleted before. */
  lemma DeploymentGoesItsWay(o: Objects, b: string, p: Plan, faults: set<Call>, id: string)
    requires b != id && KeepsClear(b, p.pvcs, id) && HonestLabels(o, id)
    ensures
      var (d, ok) := Deployed(o, b, p, faults);
      Deployed(Stripped(o, id), b, p, faults) == (Stripped(d, id), ok) && HonestLabels(d, id)
  {
    NamesAreInjective(b, id);
    PutPastRemoved(o.secrets, SecretName(b), p.secret, SecretName(id));
    ClaimsGoTheirWay(o.claims, b, p.pvcs, faults, id);
    if CreateSecret !in faults && SecretName(b) !in o.secrets {
      var claims := WithClaims(o.claims, b, p.pvcs, faults).0;
      var next := o.(secrets := o.secrets[SecretName(b) := p.secret], claims := claims);
      assert Stripped(next, id) == Stripped(o, id).(secrets := Stripped(o, id).secrets[SecretName(b) := p.secret],
                                                    claims := Unswept(claims, id, {}));
      CarryingOnGoesItsWay(next, b, p, faults, id);
      CarryingOnAdds(next, b, p, faults);
    }
  }

  /** Deletions may change places. */
  lemma DeletionGoesItsWay(o: Objects, b: string, faults: set<Call>, id: string)
    ensures Deleted(Stripped(o, id), b, faults) == Stripped(Deleted(o, b, faults), id)
    ensures HonestLabels(o, id) ==> HonestLabels(Deleted(o, b, faults), id)
  {
  }

  /** The module's own deployments and deletions make no difference to what is left once it is deleted. */
  lemma OwnStepsAreStripped(o: Objects, id: string, p: Plan, faults: set<Call>)
    ensures Stripped(Deployed(o, id, p, faults).0, id) == Stripped(o, id)
  {
    DeployAdds(o, id, p, faults);
    AddedIsDeleted(o, Deployed(o, id, p, faults).0, id);
  }

  lemma OwnDeletionIsStripped(o: Objects, id: string, faults: set<Call>)
    ensures Stripped(Deleted(o, id, faults), id) == Stripped(o, id)
  {
  }

  lemma {:induction false} OwnClaimsAreHonest(claims: map<string, Claim>, id: string, pvcs: seq<PvcSpec>,
                                              faults: set<Call>)
    requires forall n :: n in claims && HasLabel(claims[n], id) ==> HasPrefix(n, ClaimPrefix(id))
    ensures
      var with := WithClaims(claims, id, pvcs, faults).0;
      forall n :: n in with && HasLabel(with[n], id) ==> HasPrefix(n, ClaimPrefix(id))
    decreases |pvcs|
  {
    if pvcs != [] {
      var name := ClaimName(id, pvcs[0].name);
      assert name[..|ClaimPrefix(id)|] == ClaimPrefix(id);
      if !(pvcs[0].quantity.None? || CreateClaim(name) in faults) {
        var more := if name in claims then claims else claims[name := Claim(ModuleLabels(id), pvcs[0].quantity.value)];
        OwnClaimsAreHonest(more, id, pvcs[1..], faults);
      }
    }
  }

  lemma OwnDeploymentIsHonest(o: Objects, id: string, p: Plan, faults: set<Call>)
    requires HonestLabels(o, id)
    ensures HonestLabels(Deployed(o, id, p, faults).0, id)
  {
    OwnClaimsAreHonest(o.claims, id, p.pvcs, faults);
    if CreateSecret !in faults && SecretName(id) !in o.secrets {
      var claims := WithClaims(o.claims, id, p.pvcs, faults).0;
      CarryingOnAdds(o.(secrets := o.secrets[SecretName(id) := p.secret], claims := claims), id, p, faults);
    }
  }
}
