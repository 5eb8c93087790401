/**
Deploying a module to the cluster, step by step, and deleting it again. The cluster is a
set of named objects; each call to it may fail.
*/
module ModuleDeploy {
  import opened Wrappers
  import opened GoStrings

  // ---------- Module specifications ----------

  datatype SecretRef = SecretRef(name: string, key: string)

  datatype EnvSpec = EnvSpec(name: string, value: string, secretRef: Option<SecretRef>)

  /** `quantity` is the size as parsed, None when it cannot be. */
  datatype PvcSpec = PvcSpec(name: string, quantity: Option<nat>, mountPath: string)

  datatype PortSpec = PortSpec(name: string, containerPort: int, protocol: string)

  datatype IngressSpec = IngressSpec(subdomain: string, pathPrefix: string, port: int, annotations: map<string, string>)

  datatype DatabaseSpec = DatabaseSpec(create: bool, name: string, user: string)

  datatype Spec = Spec(image: string, command: seq<string>, args: seq<string>, replicas: int, statefulSet: bool,
                       ports: seq<PortSpec>, env: seq<EnvSpec>, pvcs: seq<PvcSpec>, database: DatabaseSpec,
                       ingress: IngressSpec)

  /** What deployment takes from outside the specification: resolved credentials, random values, domain settings. */
  datatype Context = Context(prcEnv: map<string, string>, random: string -> string, domain: string,
                             portalDomain: string)

  // ---------- Cluster objects ----------

  type Labels = map<string, string>

  datatype Secret = Secret(labels: Labels, data: map<string, string>)

  datatype Claim = Claim(labels: Labels, quantity: nat)

  datatype Port = Port(name: string, number: int, protocol: string)

  datatype Service = Service(labels: Labels, ports: seq<Port>, selector: Labels)

  datatype EnvVar = EnvVar(name: string, value: string, secretRef: Option<SecretRef>)

  datatype Mount = Mount(volume: string, path: string)

  datatype Volume = Volume(name: string, claim: string)

  datatype Pod = Pod(labels: Labels, container: string, image: string, command: seq<string>, args: seq<string>,
                     ports: seq<Port>, env: seq<EnvVar>, envFrom: string, mounts: seq<Mount>, volumes: seq<Volume>)

  /** A Deployment, or a StatefulSet with its service name. */
  datatype Workload = Workload(labels: Labels, replicas: int, serviceName: string, selector: Labels, template: Pod)

  datatype Ingress = Ingress(labels: Labels, annotations: map<string, string>, host: string, path: string,
                             service: string, port: int)

  datatype Objects = Objects(secrets: map<string, Secret>, claims: map<string, Claim>, services: map<string, Service>,
                             deployments: map<string, Workload>, statefulSets: map<string, Workload>,
                             ingresses: map<string, Ingress>)

  /** The calls that can fail, apart from creating what exists. */
  datatype Call =
    | CreateSecret | CreateClaim(name: string) | CreateService | CreateWorkload | CreateIngress
    | DeleteIngress | DeleteDeployment | DeleteStatefulSet | DeleteService | DeleteSecret
    | ListByLabel | DeleteByLabel(name: string) | ListAll | DeleteByName(name: string)

  // ---------- What each step builds ----------

  function AppName(id: string): string {
    "polyon-" + id
  }

  function SecretName(id: string): string {
    "polyon-module-" + id
  }

  function ClaimPrefix(id: string): string {
    "polyon-" + id + "-"
  }

  function ClaimName(id: string, pvc: string): string {
    ClaimPrefix(id) + pvc
  }

  const MODULE_LABEL := "polyon.io/module"

  function ModuleLabels(id: string): Labels {
    map["app" := AppName(id), MODULE_LABEL := id]
  }

  function Selector(id: string): Labels {
    map["app" := AppName(id)]
  }

  /** int32(n). */
  function Int32(n: int): int {
    (n + 0x8000_0000) % 0x1_0000_0000 - 0x8000_0000
  }

  const PLACEHOLDER := "placeholder_will_be_updated"

  function LegacyData(db: DatabaseSpec): map<string, string> {
    var url := "postgres://" + db.user + ":" + PLACEHOLDER + "@polyon-db:5432/" + db.name + "?sslmode=disable";
    map["DATABASE_URL" := url, "DB_HOST" := "polyon-db", "DB_PORT" := "5432",
        "DB_NAME" := db.name, "DB_USER" := db.user, "DB_PASSWORD" := PLACEHOLDER]
  }

  /** One round of the loop over the environment: nothing that is set is set again. */
  function AddEnv(data: map<string, string>, e: EnvSpec, secret: string, random: string -> string)
    : map<string, string>
  {
    match e.secretRef
    case Some(r) => if r.name == secret && r.key !in data then data[r.key := random(r.key)] else data
    case None => if e.value != "" && e.name !in data then data[e.name := e.value] else data
  }

  function AddEnvs(data: map<string, string>, env: seq<EnvSpec>, secret: string, random: string -> string)
    : map<string, string>
  {
    if env == [] then data
    else AddEnv(AddEnvs(data, env[..|env| - 1], secret, random), env[|env| - 1], secret, random)
  }

  function StartData(spec: Spec, c: Context): map<string, string> {
    if c.prcEnv != map[] then c.prcEnv else if spec.database.create then LegacyData(spec.database) else map[]
  }

  function SecretData(id: string, spec: Spec, c: Context): map<string, string> {
    AddEnvs(StartData(spec, c), spec.env, SecretName(id), c.random)
  }

  function Ports(ports: seq<PortSpec>): (r: seq<Port>)
    ensures |r| == |ports|
  {
    seq(|ports|, i requires 0 <= i < |ports| =>
      Port(ports[i].name, Int32(ports[i].containerPort), if ports[i].protocol != "" then ports[i].protocol else "TCP"))
  }

  function EnvVars(env: seq<EnvSpec>): (r: seq<EnvVar>)
    ensures |r| == |env|
  {
    seq(|env|, i requires 0 <= i < |env| =>
      if env[i].secretRef.Some? then EnvVar(env[i].name, "", env[i].secretRef)
      else EnvVar(env[i].name, env[i].value, None))
  }

  function Mounts(pvcs: seq<PvcSpec>): (r: seq<Mount>)
    ensures |r| == |pvcs| && forall i :: 0 <= i < |pvcs| ==> r[i].volume == pvcs[i].name
  {
    seq(|pvcs|, i requires 0 <= i < |pvcs| => Mount(pvcs[i].name, pvcs[i].mountPath))
  }

  function Volumes(id: string, pvcs: seq<PvcSpec>): (r: seq<Volume>)
    ensures |r| == |pvcs| && forall i :: 0 <= i < |pvcs| ==> r[i] == Volume(pvcs[i].name, ClaimName(id, pvcs[i].name))
  {
    seq(|pvcs|, i requires 0 <= i < |pvcs| => Volume(pvcs[i].name, ClaimName(id, pvcs[i].name)))
  }

  /** buildPodTemplate, without probes and resource limits. */
  function PodTemplate(id: string, spec: Spec): Pod {
    Pod(ModuleLabels(id), id, spec.image, spec.command, spec.args, Ports(spec.ports), EnvVars(spec.env),
        SecretName(id), Mounts(spec.pvcs), Volumes(id, spec.pvcs))
  }

  function NewService(id: string, spec: Spec): Service {
    Service(ModuleLabels(id), Ports(spec.ports), Selector(id))
  }

  function NewWorkload(id: string, spec: Spec): Workload {
    Workload(ModuleLabels(id), if spec.replicas > 0 then Int32(spec.replicas) else 1,
             if spec.statefulSet then AppName(id) else "", Selector(id), PodTemplate(id, spec))
  }

  predicate WantsIngress(spec: Spec) {
    spec.ingress.subdomain != "" || spec.ingress.pathPrefix != ""
  }

  function NewIngress(id: string, ingress: IngressSpec, c: Context): Ingress {
    var domain := ToLower(if c.domain == "" then "cmars.com" else c.domain);
    var host := if ingress.subdomain != "" then ingress.subdomain + "." + domain
                else if c.portalDomain == "" then "portal." + domain else c.portalDomain;
    Ingress(ModuleLabels(id),
            map["traefik.ingress.kubernetes.io/router.entrypoints" := "websecure"] + ingress.annotations,
            host, if ingress.subdomain != "" then "/" else ingress.pathPrefix, AppName(id), Int32(ingress.port))
  }

  /** All that a deployment is going to create. */
  datatype Plan = Plan(secret: Secret, pvcs: seq<PvcSpec>, service: Service, statefulSet: bool, workload: Workload,
                       ingress: Option<Ingress>)

  function MakePlan(id: string, spec: Spec, c: Context): Plan {
    Plan(Secret(ModuleLabels(id), SecretData(id, spec, c)), spec.pvcs, NewService(id, spec), spec.statefulSet,
         NewWorkload(id, spec), if WantsIngress(spec) then Some(NewIngress(id, spec.ingress, c)) else None)
  }

  // ---------- Deployment as a function ----------

  /** The claims after the loop of createModulePVCs, and whether it got through. An existing claim is reused. */
  function WithClaims(claims: map<string, Claim>, id: string, pvcs: seq<PvcSpec>, faults: set<Call>)
    : (map<string, Claim>, bool)
    decreases |pvcs|
  {
    if pvcs == [] then (claims, true)
    else
      var name := ClaimName(id, pvcs[0].name);
      if pvcs[0].quantity.None? || CreateClaim(name) in faults then (claims, false)
      else
        var more := if name in claims then claims else claims[name := Claim(ModuleLabels(id), pvcs[0].quantity.value)];
        WithClaims(more, id, pvcs[1..], faults)
  }

  function AddWorkload(o: Objects, id: string, p: Plan): Objects {
    if p.statefulSet then o.(statefulSets := o.statefulSets[AppName(id) := p.workload])
    else o.(deployments := o.deployments[AppName(id) := p.workload])
  }

  predicate WorkloadExists(o: Objects, id: string, statefulSet: bool) {
    if statefulSet then AppName(id) in o.statefulSets else AppName(id) in o.deployments
  }

  /** The last two steps of DeployModule: the objects then, and success. */
  function WithWorkload(o: Objects, id: string, p: Plan, faults: set<Call>): (Objects, bool) {
    if CreateWorkload in faults || WorkloadExists(o, id, p.statefulSet) then (o, false)
    else
      var added := AddWorkload(o, id, p);
      if p.ingress.None? then (added, true)
      else if CreateIngress in faults || AppName(id) in o.ingresses then (added, false)
      else (added.(ingresses := o.ingresses[AppName(id) := p.ingress.value]), true)
  }

  /** The last three steps. */
  function CarriedOn(o: Objects, id: string, p: Plan, faults: set<Call>): (Objects, bool) {
    if CreateService in faults || AppName(id) in o.services then (o, false)
    else WithWorkload(o.(services := o.services[AppName(id) := p.service]), id, p, faults)
  }

  /** All five steps, each stopping the rest when it fails. */
  function Deployed(o: Objects, id: string, p: Plan, faults: set<Call>): (Objects, bool) {
    if CreateSecret in faults || SecretName(id) in o.secrets then (o, false)
    else
      var (claims, ok) := WithClaims(o.claims, id, p.pvcs, faults);
      var o2 := o.(secrets := o.secrets[SecretName(id) := p.secret], claims := claims);
      if ok then CarriedOn(o2, id, p, faults) else (o2, false)
  }

  // ---------- Deletion as a function ----------

  predicate HasLabel(claim: Claim, id: string) {
    MODULE_LABEL in claim.labels && claim.labels[MODULE_LABEL] == id
  }

  predicate HasClaimPrefix(name: string, id: string) {
    |name| > |ClaimPrefix(id)| && HasPrefix(name, ClaimPrefix(id))
  }

  /** Either of the two sweeps takes the claim. */
  predicate Swept(name: string, claim: Claim, id: string, faults: set<Call>) {
    (HasLabel(claim, id) && ListByLabel !in faults && DeleteByLabel(name) !in faults) ||
    (HasClaimPrefix(name, id) && ListAll !in faults && DeleteByName(name) !in faults)
  }

  function Unswept(claims: map<string, Claim>, id: string, faults: set<Call>): map<string, Claim> {
    map n | n in claims && !Swept(n, claims[n], id, faults) :: claims[n]
  }

  function Removed<T>(m: map<string, T>, name: string, failed: bool): map<string, T> {
    if failed then m else m - {name}
  }

  /** DeleteModule: every deletion is tried, whatever became of the others. */
  function Deleted(o: Objects, id: string, faults: set<Call>): Objects {
    Objects(Removed(o.secrets, SecretName(id), DeleteSecret in faults),
            Unswept(o.claims, id, faults),
            Removed(o.services, AppName(id), DeleteService in faults),
            Removed(o.deployments, AppName(id), DeleteDeployment in faults),
            Removed(o.statefulSets, AppName(id), DeleteStatefulSet in faults),
            Removed(o.ingresses, AppName(id), DeleteIngress in faults))
  }

  // ---------- The client ----------

  class Client {
    var objects: Objects

    constructor (objects: Objects)
      ensures this.objects == objects
    {
      this.objects := objects;
    }

    /** The loops of createModuleSecret. */
    static method BuildSecret(id: string, spec: Spec, c: Context) returns (secret: Secret)
      ensures secret == Secret(ModuleLabels(id), SecretData(id, spec, c))
    {
      var data: map<string, string> := map[];
      if c.prcEnv != map[] {
        data := c.prcEnv;
      }
      if c.prcEnv == map[] && spec.database.create {
        data := LegacyData(spec.database);
      }
      for i := 0 to |spec.env|
        invariant data == AddEnvs(StartData(spec, c), spec.env[..i], SecretName(id), c.random)
      {
        assert spec.env[..i + 1][..i] == spec.env[..i];
        var env := spec.env[i];
        if env.secretRef.Some? {
          if env.secretRef.value.name == SecretName(id) {
            if env.secretRef.value.key !in data {
              data := data[env.secretRef.value.key := c.random(env.secretRef.value.key)];
            }
          }
        } else if env.value != "" {
          if env.name !in data {
            data := data[env.name := env.value];
          }
        }
      }
      assert spec.env[..|spec.env|] == spec.env;
      secret := Secret(ModuleLabels(id), data);
    }

    method CreateModulePVCs(id: string, pvcs: seq<PvcSpec>, faults: set<Call>) returns (ok: bool)
      modifies this
      ensures var (claims, through) := WithClaims(old(objects).claims, id, pvcs, faults);
        objects == old(objects).(claims := claims) && ok == through
    {
      for i := 0 to |pvcs|
        invariant objects == old(objects).(claims := objects.claims)
        invariant WithClaims(objects.claims, id, pvcs[i..], faults) == WithClaims(old(objects).claims, id, pvcs, faults)
      {
        assert pvcs[i..][1..] == pvcs[i + 1..];
        var name := ClaimName(id, pvcs[i].name);
        if pvcs[i].quantity.None? {
          return false;
        }
        if CreateClaim(name) in faults {
          return false;
        }
        if name !in objects.claims {
          objects := objects.(claims := objects.claims[name := Claim(ModuleLabels(id), pvcs[i].quantity.value)]);
        }
      }
      return true;
    }

    method DeployModule(id: string, spec: Spec, c: Context, faults: set<Call>) returns (ok: bool)
      modifies this
      ensures (objects, ok) == Deployed(old(objects), id, MakePlan(id, spec, c), faults)
    {
      var secret := BuildSecret(id, spec, c);
      var p := MakePlan(id, spec, c);
      if CreateSecret in faults || SecretName(id) in objects.secrets {
        return false;
      }
      objects := objects.(secrets := objects.secrets[SecretName(id) := secret]);
      if |spec.pvcs| > 0 {
        ok := CreateModulePVCs(id, spec.pvcs, faults);
        if !ok {
          return false;
        }
      }
      ok := CarryOn(id, p, faults);
    }

    /** Service, workload and ingress. */
    method CarryOn(id: string, p: Plan, faults: set<Call>) returns (ok: bool)
      modifies this
      ensures (objects, ok) == CarriedOn(old(objects), id, p, faults)
    {
      if CreateService in faults || AppName(id) in objects.services {
        return false;
      }
      objects := objects.(services := objects.services[AppName(id) := p.service]);
      if CreateWorkload in faults || WorkloadExists(objects, id, p.statefulSet) {
        return false;
      }
      objects := AddWorkload(objects, id, p);
      if p.ingress.Some? {
        if CreateIngress in faults || AppName(id) in objects.ingresses {
          return false;
        }
        objects := objects.(ingresses := objects.ingresses[AppName(id) := p.ingress.value]);
      }
      return true;
    }

    method DeleteModule(id: string, faults: set<Call>)
      modifies this
      ensures objects == Deleted(old(objects), id, faults)
    {
      if DeleteIngress !in faults {
        objects := objects.(ingresses := objects.ingresses - {AppName(id)});
      }
      if DeleteDeployment !in faults {
        objects := objects.(deployments := objects.deployments - {AppName(id)});
      }
      if DeleteStatefulSet !in faults {
        objects := objects.(statefulSets := objects.statefulSets - {AppName(id)});
      }
      if DeleteService !in faults {
        objects := objects.(services := objects.services - {AppName(id)});
      }
      if DeleteSecret !in faults {
        objects := objects.(secrets := objects.secrets - {SecretName(id)});
      }
      DeleteClaims(id, faults);
    }

    /** The two sweeps over the claims: by label, then by name. */
    method DeleteClaims(id: string, faults: set<Call>)
      modifies this
      ensures objects == old(objects).(claims := Unswept(old(objects).claims, id, faults))
    {
      if ListByLabel !in faults {
        var listed := set n | n in objects.claims && HasLabel(objects.claims[n], id);
        Sweep(listed, set n | n in listed && DeleteByLabel(n) in faults);
      }
      if ListAll !in faults {
        var listed := set n | n in objects.claims && HasClaimPrefix(n, id);
        Sweep(listed, set n | n in listed && DeleteByName(n) in faults);
      }
      assert objects.claims == Unswept(old(objects).claims, id, faults);
    }

    /** A loop over listed claims that deletes each, except where the call fails. */
    method Sweep(listed: set<string>, failing: set<string>)
      modifies this
      ensures objects == old(objects).(claims := old(objects).claims - (listed - failing))
    {
      var rest := listed;
      while rest != {}
        invariant rest <= listed
        invariant objects == old(objects).(claims := old(objects).claims - ((listed - rest) - failing))
        decreases rest
      {
        var n :| n in rest;
        if n !in failing {
          objects := objects.(claims := objects.claims - {n});
          assert (listed - rest) - failing + {n} == (listed - (rest - {n})) - failing;
        } else {
          assert (listed - rest) - failing == (listed - (rest - {n})) - failing;
        }
        rest := rest - {n};
      }
      assert (listed - rest) - failing == listed - failing;
    }
  }

  // ---------- Deleting undoes deploying ----------

  /** Nothing in the cluster bears a name or label that deleting the module would take. */
  predicate Clear(o: Objects, id: string) {
    SecretName(id) !in o.secrets && AppName(id) !in o.services && AppName(id) !in o.deployments &&
    AppName(id) !in o.statefulSets && AppName(id) !in o.ingresses &&
    forall n :: n in o.claims ==> !HasLabel(o.claims[n], id) && !HasClaimPrefix(n, id)
  }

  /** Claims are only ever added, under the module's label. */
  lemma {:induction false} WithClaimsOnlyAdds(claims: map<string, Claim>, id: string, pvcs: seq<PvcSpec>,
                                              faults: set<Call>)
    ensures var (more, ok) := WithClaims(claims, id, pvcs, faults);
      (forall n :: n in claims ==> n in more && more[n] == claims[n]) &&
      (forall n :: n in more && n !in claims ==> HasLabel(more[n], id))
    decreases |pvcs|
  {
    if pvcs != [] {
      var name := ClaimName(id, pvcs[0].name);
      if !(pvcs[0].quantity.None? || CreateClaim(name) in faults) {
        var more := if name in claims then claims else claims[name := Claim(ModuleLabels(id), pvcs[0].quantity.value)];
        WithClaimsOnlyAdds(more, id, pvcs[1..], faults);
      }
    }
  }

  /** `d` is `o` with more objects of the module's names and more claims under its label. */
  ghost predicate Adds(o: Objects, d: Objects, id: string) {
    d.secrets - {SecretName(id)} == o.secrets - {SecretName(id)} &&
    d.services - {AppName(id)} == o.services - {AppName(id)} &&
    d.deployments - {AppName(id)} == o.deployments - {AppName(id)} &&
    d.statefulSets - {AppName(id)} == o.statefulSets - {AppName(id)} &&
    d.ingresses - {AppName(id)} == o.ingresses - {AppName(id)} &&
    (forall n :: n in o.claims ==> n in d.claims && d.claims[n] == o.claims[n]) &&
    (forall n :: n in d.claims && n !in o.claims ==> HasLabel(d.claims[n], id))
  }

  lemma PutIsRemoved<T>(m: map<string, T>, name: string, x: T)
    ensures m[name := x] - {name} == m - {name}
  {
  }

  lemma CarryingOnAdds(o: Objects, id: string, p: Plan, faults: set<Call>)
    ensures Adds(o, CarriedOn(o, id, p, faults).0, id)
    ensures CarriedOn(o, id, p, faults).0.claims == o.claims && CarriedOn(o, id, p, faults).0.secrets == o.secrets
  {
    var d := CarriedOn(o, id, p, faults).0;
    CarryingOnPuts(o, id, p, faults);
    PutIsRemoved(o.services, AppName(id), p.service);
    PutIsRemoved(o.deployments, AppName(id), p.workload);
    PutIsRemoved(o.statefulSets, AppName(id), p.workload);
    if p.ingress.Some? {
      PutIsRemoved(o.ingresses, AppName(id), p.ingress.value);
    }
  }

  /** Whatever fails, each kind of object is as before or has the planned one added. */
  lemma CarryingOnPuts(o: Objects, id: string, p: Plan, faults: set<Call>)
    ensures var d, n := CarriedOn(o, id, p, faults).0, AppName(id);
      d.claims == o.claims && d.secrets == o.secrets &&
      (d.services == o.services || d.services == o.services[n := p.service]) &&
      (d.deployments == o.deployments || d.deployments == o.deployments[n := p.workload]) &&
      (d.statefulSets == o.statefulSets || d.statefulSets == o.statefulSets[n := p.workload]) &&
      (d.ingresses == o.ingresses || (p.ingress.Some? && d.ingresses == o.ingresses[n := p.ingress.value]))
  {
    WithWorkloadPuts(o.(services := o.services[AppName(id) := p.service]), id, p, faults);
  }

  lemma WithWorkloadPuts(o: Objects, id: string, p: Plan, faults: set<Call>)
    ensures var d, n := WithWorkload(o, id, p, faults).0, AppName(id);
      d.claims == o.claims && d.secrets == o.secrets && d.services == o.services &&
      (d.deployments == o.deployments || d.deployments == o.deployments[n := p.workload]) &&
      (d.statefulSets == o.statefulSets || d.statefulSets == o.statefulSets[n := p.workload]) &&
      (d.ingresses == o.ingresses || (p.ingress.Some? && d.ingresses == o.ingresses[n := p.ingress.value]))
  {
  }

  /** A deployment, full or cut short anywhere, adds only what deletion takes away. */
  lemma DeployAdds(o: Objects, id: string, p: Plan, faults: set<Call>)
    ensures Adds(o, Deployed(o, id, p, faults).0, id)
  {
    WithClaimsOnlyAdds(o.claims, id, p.pvcs, faults);
    if CreateSecret !in faults && SecretName(id) !in o.secrets {
      var claims := WithClaims(o.claims, id, p.pvcs, faults).0;
      CarryingOnAdds(o.(secrets := o.secrets[SecretName(id) := p.secret], claims := claims), id, p, faults);
    }
  }

  lemma AddedIsDeleted(o: Objects, d: Objects, id: string)
    requires Adds(o, d, id)
    ensures Deleted(d, id, {}) == Deleted(o, id, {})
  {
  }

  lemma DeletedIsSameWhenClear(o: Objects, id: string)
    ensures Deleted(o, id, {}) == o <==> Clear(o, id)
  {
  }

  /**
  Deploying a module, up to any failing step, and deleting it again restores the cluster exactly
  when nothing there could be taken for the module's: no object of its names, no claim under
  its label, and no claim of any module whose name begins with the module's claim prefix.
  */
  lemma DeleteUndoesDeploy(o: Objects, id: string, p: Plan, faults: set<Call>)
    ensures Deleted(Deployed(o, id, p, faults).0, id, {}) == o <==> Clear(o, id)
  {
    DeployAdds(o, id, p, faults);
    AddedIsDeleted(o, Deployed(o, id, p, faults).0, id);
    DeletedIsSameWhenClear(o, id);
  }

  /** Once a deployment got past its first step, deploying again without deleting fails and changes nothing. */
  lemma RetryFails(o: Objects, id: string, p: Plan, faults: set<Call>, p2: Plan, faults2: set<Call>)
    requires CreateSecret !in faults && SecretName(id) !in o.secrets
    ensures var d := Deployed(o, id, p, faults).0; Deployed(d, id, p2, faults2) == (d, false)
  {
    var claims := WithClaims(o.claims, id, p.pvcs, faults).0;
    CarryingOnAdds(o.(secrets := o.secrets[SecretName(id) := p.secret], claims := claims), id, p, faults);
  }

  /**
  A retry after any first attempt succeeds exactly when the first did not get past creating the secret and the
  retry does.
  */
  lemma RetrySucceedsWhen(o: Objects, id: string, p: Plan, faults: set<Call>, p2: Plan, faults2: set<Call>)
    ensures Deployed(Deployed(o, id, p, faults).0, id, p2, faults2).1 <==>
      CreateSecret in faults && Deployed(o, id, p2, faults2).1
  {
    if CreateSecret !in faults && SecretName(id) !in o.secrets {
      RetryFails(o, id, p, faults, p2, faults2);
    }
  }

  lemma {:induction false} ClaimsGetThrough(claims: map<string, Claim>, id: string, pvcs: seq<PvcSpec>,
                                            faults: set<Call>)
    ensures WithClaims(claims, id, pvcs, faults).1 <==>
      forall pvc :: pvc in pvcs ==> pvc.quantity.Some? && CreateClaim(ClaimName(id, pvc.name)) !in faults
    decreases |pvcs|
  {
    if pvcs != [] {
      var name := ClaimName(id, pvcs[0].name);
      assert pvcs[0] in pvcs && forall pvc :: pvc in pvcs <==> pvc == pvcs[0] || pvc in pvcs[1..];
      if !(pvcs[0].quantity.None? || CreateClaim(name) in faults) {
        var more := if name in claims then claims else claims[name := Claim(ModuleLabels(id), pvcs[0].quantity.value)];
        ClaimsGetThrough(more, id, pvcs[1..], faults);
      }
    }
  }

  /** After its deletion a module can be deployed again: if no call fails, exactly when its claim sizes can be read. */
  lemma RetryAfterDeletion(o: Objects, id: string, p: Plan)
    ensures Deployed(Deleted(o, id, {}), id, p, {}).1 <==> forall pvc :: pvc in p.pvcs ==> pvc.quantity.Some?
  {
    ClaimsGetThrough(Deleted(o, id, {}).claims, id, p.pvcs, {});
  }

  lemma NamesAreInjective(a: string, b: string)
    ensures SecretName(a) == SecretName(b) <==> a == b
    ensures AppName(a) == AppName(b) <==> a == b
  {
    assert SecretName(a)[|"polyon-module-"|..] == a && SecretName(b)[|"polyon-module-"|..] == b;
    assert AppName(a)[|"polyon-"|..] == a && AppName(b)[|"polyon-"|..] == b;
  }

  /** What deploying any module does to the secret of module `id`. */
  lemma SecretAfterDeploy(o: Objects, id: string, other: string, p: Plan, faults: set<Call>)
    ensures SecretName(id) in Deployed(o, other, p, faults).0.secrets <==>
      SecretName(id) in o.secrets || (other == id && CreateSecret !in faults)
  {
    NamesAreInjective(id, other);
    if CreateSecret !in faults && SecretName(other) !in o.secrets {
      var claims := WithClaims(o.claims, other, p.pvcs, faults).0;
      CarryingOnAdds(o.(secrets := o.secrets[SecretName(other) := p.secret], claims := claims), other, p, faults);
    }
  }

  lemma SecretAfterDelete(o: Objects, id: string, other: string, faults: set<Call>)
    ensures SecretName(id) in Deleted(o, other, faults).secrets <==>
      SecretName(id) in o.secrets && !(other == id && DeleteSecret !in faults)
  {
    NamesAreInjective(id, other);
  }

  // ---------- No dangling references ----------

  lemma {:induction false} AddEnvsKeeps(data: map<string, string>, env: seq<EnvSpec>, secret: string,
                                        random: string -> string)
    ensures var more := AddEnvs(data, env, secret, random);
      forall k :: k in data ==> k in more && more[k] == data[k]
    ensures forall e :: e in env && e.secretRef.Some? && e.secretRef.value.name == secret ==>
      e.secretRef.value.key in AddEnvs(data, env, secret, random)
  {
    if env != [] {
      var front := env[..|env| - 1];
      AddEnvsKeeps(data, front, secret, random);
      assert forall e :: e in env <==> e in front || e == env[|env| - 1];
    }
  }

  lemma {:induction false} ClaimsExist(claims: map<string, Claim>, id: string, pvcs: seq<PvcSpec>, faults: set<Call>)
    requires WithClaims(claims, id, pvcs, faults).1
    ensures forall i :: 0 <= i < |pvcs| ==> ClaimName(id, pvcs[i].name) in WithClaims(claims, id, pvcs, faults).0
    decreases |pvcs|
  {
    if pvcs != [] {
      var name := ClaimName(id, pvcs[0].name);
      var more := if name in claims then claims else claims[name := Claim(ModuleLabels(id), pvcs[0].quantity.value)];
      ClaimsExist(more, id, pvcs[1..], faults);
      WithClaimsOnlyAdds(more, id, pvcs[1..], faults);
      assert forall i :: 1 <= i < |pvcs| ==> pvcs[i] == pvcs[1..][i - 1];
    }
  }

  /** The workload's pods mount only volumes they have, whose claims exist. */
  ghost predicate VolumesResolve(o: Objects, pod: Pod) {
    forall m :: m in pod.mounts ==> exists v :: v in pod.volumes && v.name == m.volume && v.claim in o.claims
  }

  /** Every key that the pod refers to in its own module's secret is there. */
  predicate SecretKeysResolve(o: Objects, pod: Pod, id: string) {
    SecretName(id) in o.secrets && pod.envFrom == SecretName(id) &&
    forall e :: e in pod.env && e.secretRef.Some? && e.secretRef.value.name == SecretName(id) ==>
      e.secretRef.value.key in o.secrets[SecretName(id)].data
  }

  predicate Selects(selector: Labels, labels: Labels) {
    forall k :: k in selector ==> k in labels && labels[k] == selector[k]
  }

  function WorkloadOf(o: Objects, id: string, statefulSet: bool): Workload
    requires WorkloadExists(o, id, statefulSet)
  {
    if statefulSet then o.statefulSets[AppName(id)] else o.deployments[AppName(id)]
  }

  /**
  The module's workload runs as specified, and what it needs inside the cluster is there: its volumes' claims,
  the keys of its own secret, pods that the selectors find, and the service that it and the ingress name.
  */
  ghost predicate Consistent(o: Objects, id: string, spec: Spec) {
    AppName(id) in o.services && WorkloadExists(o, id, spec.statefulSet) &&
    var w := WorkloadOf(o, id, spec.statefulSet);
    w == NewWorkload(id, spec) && VolumesResolve(o, w.template) && SecretKeysResolve(o, w.template, id) &&
    Selects(w.selector, w.template.labels) && Selects(o.services[AppName(id)].selector, w.template.labels) &&
    (spec.statefulSet ==> w.serviceName in o.services) &&
    (WantsIngress(spec) ==> AppName(id) in o.ingresses && o.ingresses[AppName(id)].service == AppName(id))
  }

  /** What a successful deployment leaves under the module's names. */
  lemma DeployedParts(o: Objects, id: string, p: Plan, faults: set<Call>)
    requires Deployed(o, id, p, faults).1
    ensures var d := Deployed(o, id, p, faults).0;
      (d.claims, true) == WithClaims(o.claims, id, p.pvcs, faults) &&
      SecretName(id) in d.secrets && d.secrets[SecretName(id)] == p.secret &&
      AppName(id) in d.services && d.services[AppName(id)] == p.service &&
      WorkloadExists(d, id, p.statefulSet) &&
      WorkloadOf(d, id, p.statefulSet) == p.workload &&
      (p.ingress.Some? ==> AppName(id) in d.ingresses && d.ingresses[AppName(id)] == p.ingress.value)
  {
    var claims := WithClaims(o.claims, id, p.pvcs, faults).0;
    CarryingOnAdds(o.(secrets := o.secrets[SecretName(id) := p.secret], claims := claims), id, p, faults);
  }

  lemma VolumesOfTemplateResolve(o: Objects, id: string, spec: Spec)
    requires forall i :: 0 <= i < |spec.pvcs| ==> ClaimName(id, spec.pvcs[i].name) in o.claims
    ensures VolumesResolve(o, PodTemplate(id, spec))
  {
  }

  lemma KeysOfTemplateResolve(o: Objects, id: string, spec: Spec, c: Context)
    requires SecretName(id) in o.secrets && o.secrets[SecretName(id)].data == SecretData(id, spec, c)
    ensures SecretKeysResolve(o, PodTemplate(id, spec), id)
  {
    var env := EnvVars(spec.env);
    AddEnvsKeeps(StartData(spec, c), spec.env, SecretName(id), c.random);
    forall e | e in env && e.secretRef.Some? && e.secretRef.value.name == SecretName(id)
      ensures e.secretRef.value.key in SecretData(id, spec, c)
    {
      var i :| 0 <= i < |spec.env| && e == env[i];
      assert spec.env[i] in spec.env && spec.env[i].secretRef == e.secretRef;
    }
  }

  lemma DeployedIsConsistent(o: Objects, id: string, spec: Spec, c: Context, faults: set<Call>)
    requires Deployed(o, id, MakePlan(id, spec, c), faults).1
    ensures Consistent(Deployed(o, id, MakePlan(id, spec, c), faults).0, id, spec)
  {
    var d := Deployed(o, id, MakePlan(id, spec, c), faults).0;
    DeployedParts(o, id, MakePlan(id, spec, c), faults);
    ClaimsExist(o.claims, id, spec.pvcs, faults);
    VolumesOfTemplateResolve(d, id, spec);
    KeysOfTemplateResolve(d, id, spec, c);
  }

  /** The ingress sends to a port of the service exactly when the specification lists that port, both cut to 32 bits. */
  lemma IngressPortResolves(o: Objects, id: string, spec: Spec, c: Context, faults: set<Call>)
    requires Deployed(o, id, MakePlan(id, spec, c), faults).1 && WantsIngress(spec)
    ensures var d := Deployed(o, id, MakePlan(id, spec, c), faults).0;
      AppName(id) in d.ingresses && AppName(id) in d.services &&
      ((exists p :: p in d.services[AppName(id)].ports && p.number == d.ingresses[AppName(id)].port) <==>
       (exists p :: p in spec.ports && Int32(p.containerPort) == Int32(spec.ingress.port)))
  {
    DeployedParts(o, id, MakePlan(id, spec, c), faults);
    var ports := Ports(spec.ports);
    if p :| p in spec.ports && Int32(p.containerPort) == Int32(spec.ingress.port) {
      var i :| 0 <= i < |spec.ports| && spec.ports[i] == p;
      assert ports[i] in ports;
    }
    if p :| p in ports && p.number == Int32(spec.ingress.port) {
      var i :| 0 <= i < |ports| && ports[i] == p;
      assert spec.ports[i] in spec.ports;
    }
  }

  /** Resolved credentials reach the secret unchanged, whatever the environment entries say. */
  lemma CredentialsAreKept(o: Objects, id: string, spec: Spec, c: Context, faults: set<Call>, k: string)
    requires Deployed(o, id, MakePlan(id, spec, c), faults).1 && k in c.prcEnv
    ensures var d := Deployed(o, id, MakePlan(id, spec, c), faults).0;
      SecretName(id) in d.secrets && k in d.secrets[SecretName(id)].data &&
      d.secrets[SecretName(id)].data[k] == c.prcEnv[k]
  {
    DeployedParts(o, id, MakePlan(id, spec, c), faults);
    AddEnvsKeeps(StartData(spec, c), spec.env, SecretName(id), c.random);
  }
}
