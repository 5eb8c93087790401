/**
What a successful deployment puts into the cluster, field by field, as the specification asks for it.
*/
module ModuleDetails {
  import opened Wrappers
  import opened GoStrings
  import opened ModuleDeploy

  // ---------- Ports, environment, volumes ----------

  /** The ports as listed; TCP unless said otherwise. */
  ghost predicate PortsAre(ports: seq<Port>, wanted: seq<PortSpec>) {
    |ports| == |wanted| && forall i :: 0 <= i < |wanted| ==>
      ports[i].name == wanted[i].name && ports[i].number == Int32(wanted[i].containerPort) &&
      ports[i].protocol == if wanted[i].protocol == "" then "TCP" else wanted[i].protocol
  }

  /** Each variable has its name, and either its reference and no value, or its value. */
  ghost predicate EnvIs(env: seq<EnvVar>, wanted: seq<EnvSpec>) {
    |env| == |wanted| && forall i :: 0 <= i < |wanted| ==>
      env[i].name == wanted[i].name && env[i].secretRef == wanted[i].secretRef &&
      (wanted[i].secretRef.Some? ==> env[i].value == "") &&
      (wanted[i].secretRef.None? ==> env[i].value == wanted[i].value)
  }

  /** Each volume claim is a volume under its own name, mounted at its path. */
  ghost predicate MountsAre(pod: Pod, id: string, wanted: seq<PvcSpec>) {
    |pod.mounts| == |pod.volumes| == |wanted| && forall i :: 0 <= i < |wanted| ==>
      pod.mounts[i].volume == pod.volumes[i].name == wanted[i].name && pod.mounts[i].path == wanted[i].mountPath &&
      pod.volumes[i].claim == "polyon-" + id + "-" + wanted[i].name
  }

  ghost predicate PodIs(pod: Pod, id: string, spec: Spec) {
    pod.container == id && pod.image == spec.image && pod.command == spec.command && pod.args == spec.args &&
    pod.envFrom == "polyon-module-" + id && pod.labels == map["app" := "polyon-" + id, "polyon.io/module" := id] &&
    PortsAre(pod.ports, spec.ports) && EnvIs(pod.env, spec.env) && MountsAre(pod, id, spec.pvcs)
  }

  /** After a successful deployment the workload and the service of the module are what the specification says. */
  lemma DeployedAsSpecified(o: Objects, id: string, spec: Spec, c: Context, faults: set<Call>)
    requires Deployed(o, id, MakePlan(id, spec, c), faults).1
    ensures
      var d, n := Deployed(o, id, MakePlan(id, spec, c), faults).0, "polyon-" + id;
      (if spec.statefulSet then n in d.statefulSets else n in d.deployments) && n in d.services &&
      var w := if spec.statefulSet then d.statefulSets[n] else d.deployments[n];
      PodIs(w.template, id, spec) && w.selector == map["app" := n] == d.services[n].selector &&
      w.labels == map["app" := n, "polyon.io/module" := id] == d.services[n].labels &&
      PortsAre(d.services[n].ports, spec.ports) &&
      w.replicas == (if spec.replicas > 0 then Int32(spec.replicas) else 1) &&
      w.serviceName == if spec.statefulSet then n else ""
  {
    DeployedParts(o, id, MakePlan(id, spec, c), faults);
    TemplateIs(id, spec);
  }

  lemma TemplateIs(id: string, spec: Spec)
    ensures PodIs(PodTemplate(id, spec), id, spec)
  {
  }

  // ---------- The ingress ----------

  /** POLYON_DOMAIN in small letters, or the default. */
  function BaseDomain(c: Context): string {
    if c.domain == "" then "cmars.com" else ToLower(c.domain)
  }

  /** The host and path of the module's address. */
  predicate AddressIs(g: Ingress, spec: IngressSpec, c: Context) {
    if spec.subdomain != "" then g.host == spec.subdomain + "." + BaseDomain(c) && g.path == "/"
    else g.path == spec.pathPrefix && g.host == if c.portalDomain != "" then c.portalDomain
    else "portal." + BaseDomain(c)
  }

  lemma DefaultDomainIsLower()
    ensures ToLower("cmars.com") == "cmars.com"
  {
    ToLowerIs("cmars.com");
  }

  /**
  After a successful deployment the module has an ingress if the specification asks for a subdomain or a path
  prefix, with that address, leading to the module's service.
  */
  lemma IngressAsSpecified(o: Objects, id: string, spec: Spec, c: Context, faults: set<Call>)
    requires Deployed(o, id, MakePlan(id, spec, c), faults).1
    ensures
      var d, n := Deployed(o, id, MakePlan(id, spec, c), faults).0, "polyon-" + id;
      if spec.ingress.subdomain == "" && spec.ingress.pathPrefix == "" then d.ingresses == o.ingresses
      else
        n in d.ingresses && d.ingresses == o.ingresses[n := d.ingresses[n]] &&
        AddressIs(d.ingresses[n], spec.ingress, c) && d.ingresses[n].service == n &&
        d.ingresses[n].port == Int32(spec.ingress.port) &&
        forall k :: k in spec.ingress.annotations ==>
          k in d.ingresses[n].annotations && d.ingresses[n].annotations[k] == spec.ingress.annotations[k]
  {
    DeployedIngresses(o, id, MakePlan(id, spec, c), faults);
    if spec.ingress.subdomain != "" || spec.ingress.pathPrefix != "" {
      NewIngressIs(id, spec.ingress, c);
    }
  }

  lemma DeployedIngresses(o: Objects, id: string, p: Plan, faults: set<Call>)
    requires Deployed(o, id, p, faults).1
    ensures Deployed(o, id, p, faults).0.ingresses ==
      if p.ingress.None? then o.ingresses else o.ingresses[AppName(id) := p.ingress.value]
  {
  }

  lemma NewIngressIs(id: string, spec: IngressSpec, c: Context)
    requires spec.subdomain != "" || spec.pathPrefix != ""
    ensures
      var g := NewIngress(id, spec, c);
      AddressIs(g, spec, c) && g.service == "polyon-" + id && g.port == Int32(spec.port) &&
      forall k :: k in spec.annotations ==> k in g.annotations && g.annotations[k] == spec.annotations[k]
  {
    DefaultDomainIsLower();
  }

  // ---------- The secret ----------

  /** The entry of the environment asks for this key in the module's own secret. */
  predicate Asks(e: EnvSpec, id: string, k: string) {
    match e.secretRef
    case Some(r) => r.name == "polyon-module-" + id && r.key == k
    case None => e.value != "" && e.name == k
  }

  /** What the entry brings for the key: its value, or a random one. */
  function Brings(e: EnvSpec, k: string, random: string -> string): string {
    if e.secretRef.Some? then random(k) else e.value
  }

  ghost predicate NoneAsks(env: seq<EnvSpec>, id: string, k: string) {
    forall e :: e in env ==> !Asks(e, id, k)
  }

  /** The first entry that asks for the key brings its value. */
  ghost predicate FirstBrings(env: seq<EnvSpec>, id: string, k: string, random: string -> string, v: string) {
    exists i :: 0 <= i < |env| && Asks(env[i], id, k) && NoneAsks(env[..i], id, k) && v == Brings(env[i], k, random)
  }

  predicate Has(data: map<string, string>, k: string, v: string) {
    k in data && data[k] == v
  }

  lemma {:induction false} AddedKey(data: map<string, string>, env: seq<EnvSpec>, id: string, random: string -> string,
                                    k: string, v: string)
    ensures Has(AddEnvs(data, env, SecretName(id), random), k, v) <==>
      Has(data, k, v) || (k !in data && FirstBrings(env, id, k, random, v))
    ensures k in AddEnvs(data, env, SecretName(id), random) <==> k in data || !NoneAsks(env, id, k)
    decreases |env|
  {
    if env != [] {
      var front, last := env[..|env| - 1], env[|env| - 1];
      assert env == front + [last];
      AddedKey(data, front, id, random, k, v);
      FirstBringsMore(front, last, id, k, random, v);
    }
  }

  lemma FirstBringsMore(front: seq<EnvSpec>, last: EnvSpec, id: string, k: string, random: string -> string, v: string)
    ensures NoneAsks(front + [last], id, k) <==> NoneAsks(front, id, k) && !Asks(last, id, k)
    ensures FirstBrings(front + [last], id, k, random, v) <==>
      FirstBrings(front, id, k, random, v) ||
      (NoneAsks(front, id, k) && Asks(last, id, k) && v == Brings(last, k, random))
  {
    var env := front + [last];
    assert env[|front|] == last && env[..|front|] == front;
    if NoneAsks(env, id, k) {
      assert last in env && forall e :: e in front ==> e in env;
    }
    if i :| 0 <= i < |env| && Asks(env[i], id, k) && NoneAsks(env[..i], id, k) && v == Brings(env[i], k, random) {
      assert i < |front| ==> env[i] == front[i] && env[..i] == front[..i];
    }
    if i :| 0 <= i < |front| && Asks(front[i], id, k) && NoneAsks(front[..i], id, k) &&
            v == Brings(front[i], k, random) {
      assert env[i] == front[i] && env[..i] == front[..i];
    }
  }

  /**
  After a successful deployment the module's secret has each resolved credential, or, when there are none and a database
  is asked for, the database's; for every other key the first entry of the environment that asks for it counts.
  */
  lemma SecretAsSpecified(o: Objects, id: string, spec: Spec, c: Context, faults: set<Call>, k: string, v: string)
    requires Deployed(o, id, MakePlan(id, spec, c), faults).1
    ensures
      var d, n := Deployed(o, id, MakePlan(id, spec, c), faults).0, "polyon-module-" + id;
      var start := if c.prcEnv != map[] then c.prcEnv else if spec.database.create then LegacyData(spec.database)
        else map[];
      n in d.secrets &&
      (Has(d.secrets[n].data, k, v) <==> Has(start, k, v) || (k !in start && FirstBrings(spec.env, id, k, c.random, v)))
  {
    DeployedParts(o, id, MakePlan(id, spec, c), faults);
    AddedKey(StartData(spec, c), spec.env, id, c.random, k, v);
  }

  /** The database's credentials: everything but the password, which is filled in later. */
  lemma DatabaseCredentials(db: DatabaseSpec)
    ensures Has(LegacyData(db), "DB_HOST", "polyon-db") && Has(LegacyData(db), "DB_PORT", "5432")
    ensures Has(LegacyData(db), "DB_NAME", db.name) && Has(LegacyData(db), "DB_USER", db.user)
    ensures Has(LegacyData(db), "DB_PASSWORD", "placeholder_will_be_updated")
    ensures
      var url := "postgres://" + db.user + ":" + "placeholder_will_be_updated" + "@polyon-db:5432/" + db.name;
      Has(LegacyData(db), "DATABASE_URL", url + "?sslmode=disable")
    ensures |LegacyData(db)| == 6
  {
    assert LegacyData(db).Keys == {"DATABASE_URL", "DB_HOST", "DB_PORT", "DB_NAME", "DB_USER", "DB_PASSWORD"};
  }

  // ---------- The claims ----------

  /** The first volume claim of the specification that has this name in the cluster. */
  ghost predicate IsFirstClaim(pvcs: seq<PvcSpec>, id: string, n: string, i: int) {
    0 <= i < |pvcs| && ClaimName(id, pvcs[i].name) == n && forall j :: 0 <= j < i ==> ClaimName(id, pvcs[j].name) != n
  }

  lemma {:induction false} NewClaim(claims: map<string, Claim>, id: string, pvcs: seq<PvcSpec>, faults: set<Call>,
                                    n: string, i: int)
    requires WithClaims(claims, id, pvcs, faults).1 && IsFirstClaim(pvcs, id, n, i)
    ensures
      var more := WithClaims(claims, id, pvcs, faults).0;
      n in more && pvcs[i].quantity.Some? &&
      more[n] == if n in claims then claims[n] else Claim(ModuleLabels(id), pvcs[i].quantity.value)
    decreases |pvcs|
  {
    var name := ClaimName(id, pvcs[0].name);
    var next := if name in claims then claims else claims[name := Claim(ModuleLabels(id), pvcs[0].quantity.value)];
    WithClaimsOnlyAdds(next, id, pvcs[1..], faults);
    if i > 0 {
      assert forall j :: 0 <= j < i - 1 ==> pvcs[1..][j] == pvcs[j + 1];
      NewClaim(next, id, pvcs[1..], faults, n, i - 1);
    }
  }

  /** A claim that was not there has the size that its first mention asks for; one that was there is left as it is. */
  lemma ClaimsAsSpecified(o: Objects, id: string, spec: Spec, c: Context, faults: set<Call>, n: string, i: int)
    requires Deployed(o, id, MakePlan(id, spec, c), faults).1 && IsFirstClaim(spec.pvcs, id, n, i)
    ensures
      var d := Deployed(o, id, MakePlan(id, spec, c), faults).0;
      n in d.claims && spec.pvcs[i].quantity.Some? &&
      d.claims[n] == if n in o.claims then o.claims[n]
                     else Claim(map["app" := "polyon-" + id, "polyon.io/module" := id], spec.pvcs[i].quantity.value)
  {
    DeployedParts(o, id, MakePlan(id, spec, c), faults);
    NewClaim(o.claims, id, spec.pvcs, faults, n, i);
  }
}
