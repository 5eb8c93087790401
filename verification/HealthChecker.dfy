/**
The health checker: every tick polls Prometheus and lists pods (or containers), and
one set of keys remembers what has been alerted already.
*/
module HealthChecker {
  import opened Wrappers
  import opened GoStrings

  /** An alert written to the store, with the key it was raised under. */
  datatype Alert = Alert(key: string, level: string, service: string, source: string)

  // ---------- Prometheus ----------

  /** One entry of the Prometheus answer; absent labels and annotations are "". */
  datatype PromAlert = PromAlert(state: string, alertname: string, severity: string, job: string, service: string,
                                 instance: string)

  function PromKey(a: PromAlert): string {
    a.alertname + ":" + a.instance
  }

  function PromRaise(a: PromAlert): Alert {
    Alert(PromKey(a), if a.severity == "critical" then "CRITICAL" else "WARN",
          if a.job != "" then a.job else if a.service != "" then a.service else "infrastructure", "prometheus")
  }

  function Firing(alerts: seq<PromAlert>): set<string> {
    set a | a in alerts && a.state == "firing" :: PromKey(a)
  }

  function Keys(raised: seq<Alert>): set<string> {
    set r | r in raised :: r.key
  }

  predicate DistinctKeys(raised: seq<Alert>) {
    forall i, j :: 0 <= i < j < |raised| ==> raised[i].key != raised[j].key
  }

  /** The alert of the first firing entry of its key. */
  ghost predicate Justified(r: Alert, alerts: seq<PromAlert>) {
    exists i :: 0 <= i < |alerts| && alerts[i].state == "firing" && r == PromRaise(alerts[i]) &&
                PromKey(alerts[i]) !in Firing(alerts[..i])
  }

  /** What a poll raises: one alert for each firing key that was not known, and nothing else. */
  ghost predicate RaisesNew(raised: seq<Alert>, fired: set<string>, alerts: seq<PromAlert>) {
    Keys(raised) == Firing(alerts) - fired && DistinctKeys(raised) && forall r :: r in raised ==> Justified(r, alerts)
  }

  /** The alert says what a firing entry says: its key, how bad it is, and what it is about. */
  ghost predicate FromPrometheus(r: Alert, alerts: seq<PromAlert>) {
    r.source == "prometheus" && exists a :: a in alerts && SaysOf(r, a)
  }

  predicate SaysOf(r: Alert, a: PromAlert) {
    a.state == "firing" && r.key == a.alertname + ":" + a.instance &&
    r.level == (if a.severity == "critical" then "CRITICAL" else "WARN") &&
    r.service == if a.job != "" then a.job else if a.service != "" then a.service else "infrastructure"
  }

  lemma JustifiedIsFromPrometheus(r: Alert, alerts: seq<PromAlert>)
    requires Justified(r, alerts)
    ensures FromPrometheus(r, alerts)
  {
    var i :| 0 <= i < |alerts| && alerts[i].state == "firing" && r == PromRaise(alerts[i]) &&
      PromKey(alerts[i]) !in Firing(alerts[..i]);
    assert alerts[i] in alerts;
  }

  lemma KeysOneMore(raised: seq<Alert>, r: Alert)
    ensures Keys(raised + [r]) == Keys(raised) + {r.key}
    ensures DistinctKeys(raised) && r.key !in Keys(raised) ==> DistinctKeys(raised + [r])
  {
  }

  lemma JustifiedMore(r: Alert, alerts: seq<PromAlert>, a: PromAlert)
    ensures Justified(r, alerts) ==> Justified(r, alerts + [a])
    ensures a.state == "firing" && PromKey(a) !in Firing(alerts) ==> Justified(PromRaise(a), alerts + [a])
  {
    var more := alerts + [a];
    assert more[..|alerts|] == alerts && more[|alerts|] == a;
    if i :| 0 <= i < |alerts| && alerts[i].state == "firing" && r == PromRaise(alerts[i]) &&
            PromKey(alerts[i]) !in Firing(alerts[..i]) {
      assert more[i] == alerts[i] && more[..i] == alerts[..i];
    }
  }

  lemma FiringOneMore(alerts: seq<PromAlert>, a: PromAlert)
    ensures Firing(alerts + [a]) == Firing(alerts) + if a.state == "firing" then {PromKey(a)} else {}
  {
  }

  lemma RaisesNoMore(raised: seq<Alert>, fired: set<string>, alerts: seq<PromAlert>, a: PromAlert)
    requires RaisesNew(raised, fired, alerts)
    requires a.state != "firing" || PromKey(a) in fired + Firing(alerts)
    ensures RaisesNew(raised, fired, alerts + [a])
  {
    FiringOneMore(alerts, a);
    forall r | r in raised ensures Justified(r, alerts + [a]) {
      JustifiedMore(r, alerts, a);
    }
  }

  lemma RaisesOneMore(raised: seq<Alert>, fired: set<string>, alerts: seq<PromAlert>, a: PromAlert)
    requires RaisesNew(raised, fired, alerts)
    requires a.state == "firing" && PromKey(a) !in fired + Firing(alerts)
    ensures RaisesNew(raised + [PromRaise(a)], fired, alerts + [a])
  {
    FiringOneMore(alerts, a);
    KeysOneMore(raised, PromRaise(a));
    forall r | r in raised + [PromRaise(a)] ensures Justified(r, alerts + [a]) {
      JustifiedMore(r, alerts, a);
    }
  }

  // ---------- Pods and containers ----------

  datatype Verdict = Good | Bad(level: string)

  /** A listed pod or container, reduced to its key and how it is doing. */
  datatype Observation = Observation(key: string, verdict: Verdict, service: string)

  datatype Pod = Pod(name: string, phase: string, ready: bool)

  datatype Container = Container(name: string, state: string, status: string)

  const POD_PREFIX := "pod_down:"
  const CONTAINER_PREFIX := "container_down:"

  predicate IsObservationKey(key: string) {
    HasPrefix(key, POD_PREFIX) || HasPrefix(key, CONTAINER_PREFIX)
  }

  function ObservePod(p: Pod): (o: Observation)
    ensures IsObservationKey(o.key)
  {
    var key := POD_PREFIX + p.name;
    assert key[..|POD_PREFIX|] == POD_PREFIX;
    Observation(key, if p.phase != "Running" then Bad("CRITICAL")
                     else if !p.ready then Bad("WARN") else Good, "kubernetes")
  }

  function ObserveContainer(c: Container): (o: Observation)
    ensures IsObservationKey(o.key)
  {
    var key := CONTAINER_PREFIX + c.name;
    assert key[..|CONTAINER_PREFIX|] == CONTAINER_PREFIX;
    Observation(key, if c.state != "running" then Bad("CRITICAL")
                     else if Contains(ToLower(c.status), "unhealthy") then Bad("WARN") else Good, "docker")
  }

  /** What one tick gets to see: pods if they can be listed, else containers if they can, else nothing. */
  function Observe(pods: Option<seq<Pod>>, containers: Option<seq<Container>>): (os: seq<Observation>)
    ensures forall o :: o in os ==> IsObservationKey(o.key)
  {
    if pods.Some? then seq(|pods.value|, i requires 0 <= i < |pods.value| => ObservePod(pods.value[i]))
    else if containers.Some? then
      seq(|containers.value|, i requires 0 <= i < |containers.value| => ObserveContainer(containers.value[i]))
    else []
  }

  /** The known keys after a list of observations. */
  function FiredAfter(fired: set<string>, os: seq<Observation>): set<string> {
    if os == [] then fired
    else
      var o, before := os[|os| - 1], FiredAfter(fired, os[..|os| - 1]);
      if o.verdict.Bad? then before + {o.key} else before - {o.key}
  }

  /** The alerts raised along the way. */
  function RaisedBy(fired: set<string>, os: seq<Observation>): seq<Alert> {
    if os == [] then []
    else
      var front, o := os[..|os| - 1], os[|os| - 1];
      RaisedBy(fired, front) +
        if RaisesAt(fired, os, |front|) then [Alert(o.key, o.verdict.level, o.service, "health_checker")] else []
  }

  /** Observation `n` raises an alert. */
  predicate RaisesAt(fired: set<string>, os: seq<Observation>, n: nat)
    requires n < |os|
  {
    os[n].verdict.Bad? && os[n].key !in FiredAfter(fired, os[..n])
  }

  // ---------- What is said of each pod ----------

  lemma {:induction false} RaisedIs(fired: set<string>, os: seq<Observation>, r: Alert)
    ensures r in RaisedBy(fired, os) <==>
      exists n :: 0 <= n < |os| && RaisesAt(fired, os, n) &&
                  r == Alert(os[n].key, os[n].verdict.level, os[n].service, "health_checker")
    decreases |os|
  {
    if os != [] {
      var front, last := os[..|os| - 1], |os| - 1;
      RaisedIs(fired, front, r);
      forall n | 0 <= n < last ensures RaisesAt(fired, front, n) <==> RaisesAt(fired, os, n) {
        assert front[..n] == os[..n];
      }
      if n :| 0 <= n < last && RaisesAt(fired, os, n) &&
              r == Alert(os[n].key, os[n].verdict.level, os[n].service, "health_checker") {
        assert RaisesAt(fired, front, n) && front[n] == os[n];
      }
      if n :| 0 <= n < |front| && RaisesAt(fired, front, n) &&
              r == Alert(front[n].key, front[n].verdict.level, front[n].service, "health_checker") {
        assert RaisesAt(fired, os, n) && front[n] == os[n];
      }
    }
  }

  /** Of this key there is one alert, of this level, if it is bad and was not known, and otherwise none. */
  ghost predicate Says(raised: seq<Alert>, fired: set<string>, key: string, bad: bool, level: string, service: string) {
    ((exists r :: r in raised && r.key == key) <==> bad && key !in fired) &&
    forall r :: r in raised && r.key == key ==> r == Alert(key, level, service, "health_checker")
  }

  lemma OneObservation(fired: set<string>, os: seq<Observation>, n: nat, level: string)
    requires n < |os| && forall m :: 0 <= m < |os| && m != n ==> os[m].key != os[n].key
    requires os[n].verdict.Bad? ==> os[n].verdict.level == level
    ensures Says(RaisedBy(fired, os), fired, os[n].key, os[n].verdict.Bad?, level, os[n].service)
    ensures os[n].key in FiredAfter(fired, os) <==> os[n].verdict.Bad?
  {
    var raised, key, alert := RaisedBy(fired, os), os[n].key, Alert(os[n].key, level, os[n].service, "health_checker");
    ObservationsKeepOtherKeys(fired, os[..n], key);
    RaisedIs(fired, os, alert);
    forall r | r in raised && r.key == key ensures r == alert && RaisesAt(fired, os, n) {
      RaisedIs(fired, os, r);
    }
    KnownMeansLastSeenBad(fired, os, key);
  }

  lemma KeysDiffer(prefix: string, a: string, b: string)
    ensures prefix + a == prefix + b <==> a == b
  {
    assert (prefix + a)[|prefix|..] == a && (prefix + b)[|prefix|..] == b;
  }

  /** No other pod of the list has this name. */
  predicate PodIsAlone(pods: seq<Pod>, n: nat)
    requires n < |pods|
  {
    forall m :: 0 <= m < |pods| && m != n ==> pods[m].name != pods[n].name
  }

  predicate ContainerIsAlone(containers: seq<Container>, n: nat)
    requires n < |containers|
  {
    forall m :: 0 <= m < |containers| && m != n ==> containers[m].name != containers[n].name
  }

  /** A pod is alerted if it is not running, or running and not ready, and was not known. */
  lemma PodIsAlerted(fired: set<string>, pods: seq<Pod>, containers: Option<seq<Container>>, n: nat)
    requires n < |pods| && PodIsAlone(pods, n)
    ensures
      var p, os := pods[n], Observe(Some(pods), containers);
      Says(RaisedBy(fired, os), fired, "pod_down:" + p.name, p.phase != "Running" || !p.ready,
           if p.phase != "Running" then "CRITICAL" else "WARN", "kubernetes") &&
      ("pod_down:" + p.name in FiredAfter(fired, os) <==> p.phase != "Running" || !p.ready)
  {
    var os := Observe(Some(pods), containers);
    forall m | 0 <= m < |os| && m != n ensures os[m].key != os[n].key {
      KeysDiffer(POD_PREFIX, pods[m].name, pods[n].name);
    }
    OneObservation(fired, os, n, if pods[n].phase != "Running" then "CRITICAL" else "WARN");
  }

  /**
  When pods cannot be listed: a container is alerted if it is not running, or says that it is unhealthy, and was
  not known.
  */
  lemma ContainerIsAlerted(fired: set<string>, containers: seq<Container>, n: nat)
    requires n < |containers| && ContainerIsAlone(containers, n)
    ensures
      var c, os := containers[n], Observe(None, Some(containers));
      var bad := c.state != "running" || Contains(ToLower(c.status), "unhealthy");
      Says(RaisedBy(fired, os), fired, "container_down:" + c.name, bad,
           if c.state != "running" then "CRITICAL" else "WARN", "docker") &&
      ("container_down:" + c.name in FiredAfter(fired, os) <==> bad)
  {
    var os := Observe(None, Some(containers));
    forall m | 0 <= m < |os| && m != n ensures os[m].key != os[n].key {
      KeysDiffer(CONTAINER_PREFIX, containers[m].name, containers[n].name);
    }
    OneObservation(fired, os, n, if containers[n].state != "running" then "CRITICAL" else "WARN");
  }

  // ---------- The checker ----------

  class Checker {
    var firedAlerts: set<string>

    constructor ()
      ensures firedAlerts == {}
    {
      firedAlerts := {};
    }

    /** checkPrometheusAlerts; a poll that fails is None. */
    method CheckPrometheus(poll: Option<seq<PromAlert>>) returns (raised: seq<Alert>)
      modifies this
      ensures firedAlerts == PolledKeys(old(firedAlerts), poll)
      ensures if poll.None? then raised == [] else RaisesNew(raised, old(firedAlerts), poll.value)
      ensures poll.Some? ==> forall k ::
        k in firedAlerts <==> exists a :: a in poll.value && a.state == "firing" && k == a.alertname + ":" + a.instance
      ensures forall r :: r in raised ==> poll.Some? && FromPrometheus(r, poll.value)
    {
      raised := [];
      if poll.None? {
        return;
      }
      var alerts, currentFiring: set<string> := poll.value, {};
      for i := 0 to |alerts|
        invariant currentFiring == Firing(alerts[..i])
        invariant firedAlerts == old(firedAlerts) + currentFiring
        invariant RaisesNew(raised, old(firedAlerts), alerts[..i])
      {
        var a := alerts[i];
        assert alerts[..i + 1] == alerts[..i] + [a];
        FiringOneMore(alerts[..i], a);
        if a.state != "firing" {
          RaisesNoMore(raised, old(firedAlerts), alerts[..i], a);
          continue;
        }
        var key := PromKey(a);
        currentFiring := currentFiring + {key};
        if key in firedAlerts {
          RaisesNoMore(raised, old(firedAlerts), alerts[..i], a);
        } else {
          RaisesOneMore(raised, old(firedAlerts), alerts[..i], a);
          raised := raised + [PromRaise(a)];
          firedAlerts := firedAlerts + {key};
        }
      }
      assert alerts[..|alerts|] == alerts;
      var rest := firedAlerts;
      while rest != {}
        invariant currentFiring <= firedAlerts <= currentFiring + rest
        decreases rest
      {
        var key :| key in rest;
        rest := rest - {key};
        if key !in currentFiring {
          firedAlerts := firedAlerts - {key};
        }
      }
      forall r | r in raised ensures FromPrometheus(r, alerts) {
        JustifiedIsFromPrometheus(r, alerts);
      }
    }

    /** checkContainerHealth. */
    method CheckContainers(pods: Option<seq<Pod>>, containers: Option<seq<Container>>) returns (raised: seq<Alert>)
      modifies this
      ensures firedAlerts == FiredAfter(old(firedAlerts), Observe(pods, containers))
      ensures raised == RaisedBy(old(firedAlerts), Observe(pods, containers))
      ensures pods.Some? ==> forall n :: 0 <= n < |pods.value| && PodIsAlone(pods.value, n) ==>
        var p := pods.value[n];
        Says(raised, old(firedAlerts), "pod_down:" + p.name, p.phase != "Running" || !p.ready,
             if p.phase != "Running" then "CRITICAL" else "WARN", "kubernetes")
      ensures pods.None? && containers.Some? ==>
        forall n :: 0 <= n < |containers.value| && ContainerIsAlone(containers.value, n) ==>
          var c := containers.value[n];
          Says(raised, old(firedAlerts), "container_down:" + c.name,
               c.state != "running" || Contains(ToLower(c.status), "unhealthy"),
               if c.state != "running" then "CRITICAL" else "WARN", "docker")
      ensures pods.None? && containers.None? ==> raised == [] && firedAlerts == old(firedAlerts)
    {
      raised := [];
      var os := Observe(pods, containers);
      for i := 0 to |os|
        invariant firedAlerts == FiredAfter(old(firedAlerts), os[..i])
        invariant raised == RaisedBy(old(firedAlerts), os[..i])
      {
        assert os[..i + 1][..i] == os[..i];
        var o := os[i];
        if o.verdict.Bad? {
          if o.key !in firedAlerts {
            raised := raised + [Alert(o.key, o.verdict.level, o.service, "health_checker")];
            firedAlerts := firedAlerts + {o.key};
          }
        } else {
          firedAlerts := firedAlerts - {o.key};
        }
      }
      assert os[..|os|] == os;
      SaidOfEach(old(firedAlerts), pods, containers);
    }
  }

  lemma SaidOfEach(fired: set<string>, pods: Option<seq<Pod>>, containers: Option<seq<Container>>)
    ensures pods.Some? ==> forall n :: 0 <= n < |pods.value| && PodIsAlone(pods.value, n) ==>
      var p := pods.value[n];
      Says(RaisedBy(fired, Observe(pods, containers)), fired, "pod_down:" + p.name, p.phase != "Running" || !p.ready,
           if p.phase != "Running" then "CRITICAL" else "WARN", "kubernetes")
    ensures pods.None? && containers.Some? ==>
      forall n :: 0 <= n < |containers.value| && ContainerIsAlone(containers.value, n) ==>
        var c := containers.value[n];
        Says(RaisedBy(fired, Observe(pods, containers)), fired, "container_down:" + c.name,
             c.state != "running" || Contains(ToLower(c.status), "unhealthy"),
             if c.state != "running" then "CRITICAL" else "WARN", "docker")
  {
    if pods.Some? {
      forall n | 0 <= n < |pods.value| && PodIsAlone(pods.value, n)
        ensures
          var p := pods.value[n];
          Says(RaisedBy(fired, Observe(pods, containers)), fired, "pod_down:" + p.name,
               p.phase != "Running" || !p.ready, if p.phase != "Running" then "CRITICAL" else "WARN", "kubernetes")
      {
        PodIsAlerted(fired, pods.value, containers, n);
      }
    } else if containers.Some? {
      forall n | 0 <= n < |containers.value| && ContainerIsAlone(containers.value, n)
        ensures
          var c := containers.value[n];
          Says(RaisedBy(fired, Observe(pods, containers)), fired, "container_down:" + c.name,
               c.state != "running" || Contains(ToLower(c.status), "unhealthy"),
               if c.state != "running" then "CRITICAL" else "WARN", "docker")
      {
        ContainerIsAlerted(fired, containers.value, n);
      }
    }
  }

  // ---------- Runs ----------

  datatype Tick = Tick(poll: Option<seq<PromAlert>>, os: seq<Observation>)

  /** After a poll that works the known keys are the firing ones, whatever was known before. */
  function PolledKeys(fired: set<string>, poll: Option<seq<PromAlert>>): set<string> {
    if poll.None? then fired else Firing(poll.value)
  }

  function Run(fired: set<string>, ticks: seq<Tick>): set<string> {
    if ticks == [] then fired
    else
      var t := ticks[|ticks| - 1];
      FiredAfter(PolledKeys(Run(fired, ticks[..|ticks| - 1]), t.poll), t.os)
  }

  /** The keys that fired at the latest poll that worked; before the first one, those known at the start. */
  function LatestFiring(fired: set<string>, ticks: seq<Tick>): set<string> {
    if ticks == [] then fired
    else PolledKeys(LatestFiring(fired, ticks[..|ticks| - 1]), ticks[|ticks| - 1].poll)
  }

  /** Prometheus keys and pod or container keys never meet. */
  predicate KeysApart(ticks: seq<Tick>) {
    forall t :: t in ticks ==>
      (t.poll.Some? ==> forall k :: k in Firing(t.poll.value) ==> !IsObservationKey(k)) &&
      forall o :: o in t.os ==> IsObservationKey(o.key)
  }

  lemma {:induction false} ObservationsKeepOtherKeys(fired: set<string>, os: seq<Observation>, k: string)
    requires forall o :: o in os ==> o.key != k
    ensures k in FiredAfter(fired, os) <==> k in fired
  {
    if os != [] {
      assert os[|os| - 1] in os;
      ObservationsKeepOtherKeys(fired, os[..|os| - 1], k);
    }
  }

  /** However pods come and go in between, the Prometheus keys known are those of the latest poll. */
  lemma {:induction false} KnownPrometheusKeys(ticks: seq<Tick>, k: string)
    requires KeysApart(ticks) && !IsObservationKey(k)
    ensures k in Run({}, ticks) <==> k in LatestFiring({}, ticks)
  {
    if ticks != [] {
      var front, t := ticks[..|ticks| - 1], ticks[|ticks| - 1];
      KnownPrometheusKeys(front, k);
      assert t in ticks;
      ObservationsKeepOtherKeys(PolledKeys(Run({}, front), t.poll), t.os, k);
    }
  }

  /**
  Over any run of ticks a poll raises exactly one alert for each rising edge: each key
  that fires now and did not at the poll before.
  */
  lemma PollRaisesRisingEdges(ticks: seq<Tick>, alerts: seq<PromAlert>, raised: seq<Alert>)
    requires KeysApart(ticks + [Tick(Some(alerts), [])])
    requires RaisesNew(raised, Run({}, ticks), alerts)
    ensures Keys(raised) == Firing(alerts) - LatestFiring({}, ticks) && DistinctKeys(raised)
    ensures PolledKeys(Run({}, ticks), Some(alerts)) == Firing(alerts)
  {
    var last := Tick(Some(alerts), []);
    assert last in ticks + [last];
    assert forall t :: t in ticks ==> t in ticks + [last];
    forall k | k in Firing(alerts) ensures k in Run({}, ticks) <==> k in LatestFiring({}, ticks) {
      KnownPrometheusKeys(ticks, k);
    }
  }

  // ---------- Pods: edges since the latest poll ----------

  /** The latest observation of `key` in `os` is bad; with none, the key was known at the start. */
  ghost predicate LastSeenBad(fired: set<string>, os: seq<Observation>, key: string) {
    (exists m :: 0 <= m < |os| && os[m].key == key && os[m].verdict.Bad? &&
                 forall n :: m < n < |os| ==> os[n].key != key) ||
    (key in fired && forall n :: 0 <= n < |os| ==> os[n].key != key)
  }

  lemma {:induction false} KnownMeansLastSeenBad(fired: set<string>, os: seq<Observation>, key: string)
    ensures key in FiredAfter(fired, os) <==> LastSeenBad(fired, os, key)
  {
    if os != [] {
      var last := |os| - 1;
      KnownMeansLastSeenBad(fired, os[..last], key);
      if os[last].key != key {
        LastSeenElsewhere(fired, os, key);
      } else if os[last].verdict.Bad? {
        assert LastSeenBad(fired, os, key);
      }
    }
  }

  lemma LastSeenElsewhere(fired: set<string>, os: seq<Observation>, key: string)
    requires os != [] && os[|os| - 1].key != key
    ensures LastSeenBad(fired, os, key) <==> LastSeenBad(fired, os[..|os| - 1], key)
  {
  }

  /** The observations since the latest poll that worked, those of its own tick included. */
  function Seen(ticks: seq<Tick>): seq<Observation> {
    if ticks == [] then []
    else
      var t := ticks[|ticks| - 1];
      (if t.poll.Some? then [] else Seen(ticks[..|ticks| - 1])) + t.os
  }

  lemma {:induction false} FiredAfterConcat(fired: set<string>, a: seq<Observation>, b: seq<Observation>)
    ensures FiredAfter(fired, a + b) == FiredAfter(FiredAfter(fired, a), b)
  {
    if b == [] {
      assert a + b == a;
    } else {
      assert (a + b)[..|a + b| - 1] == a + b[..|b| - 1];
      FiredAfterConcat(fired, a, b[..|b| - 1]);
    }
  }

  /** Over any run of ticks the known keys are those of the latest poll with the observations since. */
  lemma {:induction false} KnownKeys(fired: set<string>, ticks: seq<Tick>)
    ensures Run(fired, ticks) == FiredAfter(LatestFiring(fired, ticks), Seen(ticks))
  {
    if ticks != [] {
      var front, t := ticks[..|ticks| - 1], ticks[|ticks| - 1];
      KnownKeys(fired, front);
      if t.poll.None? {
        FiredAfterConcat(LatestFiring(fired, front), Seen(front), t.os);
      } else {
        assert [] + t.os == t.os;
      }
    }
  }

  /**
  Over any run of ticks, polls working or not: the `n`-th observation of a tick raises an alert exactly when the
  pod is bad now and was not at its latest observation since the latest poll that worked, its own key not firing there.
  */
  lemma PodAlertsOnEdges(fired: set<string>, ticks: seq<Tick>, poll: Option<seq<PromAlert>>, os: seq<Observation>,
                         n: nat)
    requires n < |os|
    ensures
      var now := ticks + [Tick(poll, [])];
      RaisesAt(PolledKeys(Run(fired, ticks), poll), os, n) <==>
        os[n].verdict.Bad? && !LastSeenBad(LatestFiring(fired, now), Seen(now) + os[..n], os[n].key)
  {
    var now := ticks + [Tick(poll, [])];
    assert now[..|ticks|] == ticks;
    assert Run(fired, now) == PolledKeys(Run(fired, ticks), poll);
    KnownKeys(fired, now);
    FiredAfterConcat(LatestFiring(fired, now), Seen(now), os[..n]);
    KnownMeansLastSeenBad(LatestFiring(fired, now), Seen(now) + os[..n], os[n].key);
  }

  lemma {:induction false} LatestFiringKeepsApart(ticks: seq<Tick>, k: string)
    requires KeysApart(ticks) && IsObservationKey(k)
    ensures k !in LatestFiring({}, ticks)
  {
    if ticks != [] {
      assert ticks[|ticks| - 1] in ticks;
      LatestFiringKeepsApart(ticks[..|ticks| - 1], k);
    }
  }

  /** With keys apart, a checker started afresh alerts a pod exactly on its edges since the latest poll that worked. */
  lemma PodAlertsSinceLatestPoll(ticks: seq<Tick>, poll: Option<seq<PromAlert>>, os: seq<Observation>, n: nat)
    requires n < |os| && KeysApart(ticks + [Tick(poll, os)])
    ensures
      var seen := Seen(ticks + [Tick(poll, [])]) + os[..n];
      RaisesAt(PolledKeys(Run({}, ticks), poll), os, n) <==> os[n].verdict.Bad? && !LastSeenBad({}, seen, os[n].key)
  {
    var now, whole := ticks + [Tick(poll, [])], ticks + [Tick(poll, os)];
    assert whole[|ticks|] in whole && os[n] in os;
    forall t | t in now ensures t in whole || t == Tick(poll, []) {
    }
    LatestFiringKeepsApart(now, os[n].key);
    PodAlertsOnEdges({}, ticks, poll, os, n);
  }

  /** A poll that works forgets the pods: in that tick every bad one is alerted again, known or not. */
  lemma WorkingPollRepeatsPodAlerts(fired: set<string>, alerts: seq<PromAlert>, os: seq<Observation>, n: nat)
    requires n < |os| && os[n].key !in Firing(alerts)
    requires forall m :: 0 <= m < n ==> os[m].key != os[n].key
    ensures RaisesAt(PolledKeys(fired, Some(alerts)), os, n) <==> os[n].verdict.Bad?
  {
    ObservationsKeepOtherKeys(Firing(alerts), os[..n], os[n].key);
  }
}
