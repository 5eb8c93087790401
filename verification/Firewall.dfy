/**
The firewall's state machine: the exposure flags kept on disk, the saved base
configuration, and the configuration installed in the Traefik container.
*/
module Firewall {
  import opened Wrappers
  import opened GoStrings
  import opened FirewallText
  import opened DomainRouters

  // ---------- The service tables ----------

  /** The services, those that must not be blocked, and the router keys that go with each when it is. */
  datatype Table = Table(services: set<string>, essential: set<string>, routers: map<string, set<string>>)

  const SERVICES := {
    "polyon-console", "keycloak", "stalwart-admin", "grafana", "rustfs", "elasticvue", "pgadmin",
    "redisinsight", "traefik", "smtp", "submission", "imaps", "managesieve", "ldap", "ldaps",
    "kerberos", "dns-ad"
  }

  /** firewallRouterMap, HTTP and TCP routers alike; all but three services have one router of their own name. */
  function StandardRouters(id: string): set<string> {
    if id == "keycloak" then {"keycloak", "keycloak-auth-proxy"}
    else if id == "traefik" then {"traefik-dashboard", "traefik-api"}
    else if id == "dns-ad" then {"dns"}
    else {id}
  }

  const STANDARD := Table(SERVICES, {"polyon-console"},
                          map id | id in SERVICES && id != "polyon-console" :: StandardRouters(id))

  function RouterKeys(t: Table, id: string): set<string> {
    if id in t.routers then t.routers[id] else {}
  }

  /** No router belongs to two services. */
  ghost predicate OneServiceEach(t: Table) {
    forall a, b, key :: key in RouterKeys(t, a) && key in RouterKeys(t, b) ==> a == b
  }

  lemma StandardHasOneServiceEach()
    ensures OneServiceEach(STANDARD)
  {
    forall a, b, key | key in RouterKeys(STANDARD, a) && key in RouterKeys(STANDARD, b) ensures a == b {
      RoutersDiffer(a, b, key);
    }
  }

  lemma RoutersDiffer(a: string, b: string, key: string)
    requires a in SERVICES && b in SERVICES && key in StandardRouters(a) && key in StandardRouters(b)
    ensures a == b
  {
  }

  /** All the routers that can be blocked; only two services have more than one. */
  const ROUTER_KEYS := {
    "keycloak", "keycloak-auth-proxy", "stalwart-admin", "grafana", "rustfs", "elasticvue", "pgadmin", "redisinsight",
    "traefik-dashboard", "traefik-api", "smtp", "submission", "imaps", "managesieve", "ldap", "ldaps", "kerberos", "dns"
  }

  lemma StandardRouterKeys(key: string)
    ensures key in ROUTER_KEYS <==> exists id :: key in RouterKeys(STANDARD, id)
    ensures key in RouterKeys(STANDARD, "keycloak") <==> key in {"keycloak", "keycloak-auth-proxy"}
    ensures key in RouterKeys(STANDARD, "traefik") <==> key in {"traefik-dashboard", "traefik-api"}
    ensures key in RouterKeys(STANDARD, "dns-ad") <==> key == "dns"
    ensures RouterKeys(STANDARD, "polyon-console") == {}
  {
    if key in ROUTER_KEYS {
      var id := if key == "keycloak-auth-proxy" then "keycloak" else if key == "dns" then "dns-ad"
                else if key == "traefik-dashboard" || key == "traefik-api" then "traefik" else key;
      assert key in RouterKeys(STANDARD, id);
    }
  }

  type Flags = map<string, bool>

  ghost function BlockKeys(t: Table, flags: Flags): set<string> {
    set id, key | id in flags && !flags[id] && key in RouterKeys(t, id) :: key
  }

  /** Gathers the keys to block from the flags, which are visited in an arbitrary order. */
  method CollectBlockKeys(t: Table, flags: Flags) returns (blockKeys: set<string>)
    ensures blockKeys == BlockKeys(t, flags)
  {
    blockKeys := {};
    var rest := flags.Keys;
    while rest != {}
      invariant rest <= flags.Keys
      invariant blockKeys == set id, key | id in flags && id !in rest && !flags[id] && key in RouterKeys(t, id) :: key
      decreases rest
    {
      var id :| id in rest;
      rest := rest - {id};
      if flags[id] {
        continue;
      }
      blockKeys := blockKeys + RouterKeys(t, id);
    }
  }

  // ---------- States and steps ----------

  /** What the calls to the outside do during one apply. */
  datatype World = World(docker: bool, copy: bool, saveBase: bool, write: Write)

  /** A failed write may leave any text behind. */
  datatype Write = Written | Failed(left: string)

  datatype State = State(table: Table, flags: Option<Flags>, base: Option<string>, installed: string, domains: Domains)

  /** readFirewallState: without a state file every service is exposed. */
  function ReadFlags(t: Table, flags: Option<Flags>): Flags {
    match flags
    case Some(f) => f
    case None => map id | id in t.services :: true
  }

  /** The text that belongs in the container for a base and a set of flags. */
  ghost function Wanted(t: Table, base: string, domains: Domains, flags: Flags): string {
    Render(Inject(base, domains), BlockKeys(t, flags))
  }

  /** An apply that reaches the container and writes it. */
  predicate Succeeds(w: World, base: Option<string>) {
    w.docker && (base.Some? || w.copy) && w.write.Written?
  }

  ghost function Applied(s: State, w: World): State {
    if !w.docker || (s.base.None? && !w.copy) then s
    else
      var base := if s.base.Some? then s.base.value else s.installed;
      s.(base := if s.base.None? && w.saveBase then Some(base) else s.base,
         installed := if w.write.Written? then Wanted(s.table, base, s.domains, ReadFlags(s.table, s.flags))
                      else w.write.left)
  }

  datatype Request = Toggle(id: string, exposed: bool) | Bulk(wanted: Flags) | Apply

  /** The entries of a bulk request that are not skipped. */
  function Accepted(t: Table, wanted: Flags): Flags {
    map id | id in wanted && id in t.services && (wanted[id] || id !in t.essential) :: wanted[id]
  }

  /** The flag changes a request asks for, or None when the handler answers 404 or 400 and changes nothing. */
  function Changes(t: Table, r: Request): Option<Flags> {
    match r
    case Apply => Some(map[])
    case Bulk(wanted) => Some(Accepted(t, wanted))
    case Toggle(id, exposed) => if id in Accepted(t, map[id := exposed]) then Some(map[id := exposed]) else None
  }

  /** One handled request; `saved` says whether the state file could be written. */
  datatype Event = Event(request: Request, saved: bool, w: World)

  ghost function Step(s: State, e: Event): State {
    match Changes(s.table, e.request)
    case None => s
    case Some(changes) =>
      var flags := if e.saved && !e.request.Apply? then Some(ReadFlags(s.table, s.flags) + changes) else s.flags;
      Applied(s.(flags := flags), e.w)
  }

  ghost function Run(s: State, events: seq<Event>): State
    decreases events
  {
    if events == [] then s else Run(Step(s, events[0]), events[1..])
  }

  // ---------- The handlers ----------

  datatype Reply = NotFound | EssentialRefused | ApplyFailed | Ok

  class Server {
    var flags: Option<Flags>
    var base: Option<string>
    var installed: string
    const table: Table
    const domains: Domains

    constructor (base: Option<string>, installed: string, domains: Domains)
      ensures Abs() == State(STANDARD, None, base, installed, domains)
    {
      flags, this.base, this.installed, table, this.domains := None, base, installed, STANDARD, domains;
    }

    ghost function Abs(): State
      reads this
    {
      State(table, flags, base, installed, domains)
    }

    /** applyFirewallState. */
    method ApplyState(w: World) returns (ok: bool)
      modifies this
      ensures Abs() == Applied(old(Abs()), w)
      ensures base == if old(base).None? && w.docker && w.copy && w.saveBase then Some(old(installed)) else old(base)
      ensures w.docker && (old(base).Some? || w.copy) ==>
        installed == if w.write.Written? then Wanted(table, if old(base).Some? then old(base).value else old(installed),
                                                     domains, ReadFlags(table, flags)) else w.write.left
      ensures ok == Succeeds(w, old(base))
    {
      if !w.docker {
        return false;
      }
      var baseYaml;
      if base.Some? {
        baseYaml := base.value;
      } else {
        if !w.copy {
          return false;
        }
        baseYaml := installed;
        if w.saveBase {
          base := Some(baseYaml);
        }
      }
      var full := Inject(baseYaml, domains);
      var blockKeys := CollectBlockKeys(table, ReadFlags(table, flags));
      var text := TextToInstall(full, blockKeys);
      match w.write {
        case Written =>
          installed := text;
          ok := true;
        case Failed(left) =>
          installed := left;
          ok := false;
      }
    }

    /** The full text when nothing is blocked, and otherwise what the scan makes of it. */
    static method TextToInstall(full: string, blockKeys: set<string>) returns (text: string)
      ensures text == Render(full, blockKeys)
    {
      if blockKeys == {} {
        NothingBlocked(full);
        return full;
      }
      var result := CommentOut(Split(full), blockKeys);
      return Join(result);
    }

    method ToggleService(id: string, exposed: bool, saved: bool, w: World) returns (reply: Reply)
      modifies this
      ensures Abs() == Step(old(Abs()), Event(Toggle(id, exposed), saved, w))
      ensures reply == if id !in table.services then NotFound
                       else if id in table.essential && !exposed then EssentialRefused
                       else if Succeeds(w, old(base)) then Ok else ApplyFailed
    {
      if id !in table.services {
        return NotFound;
      }
      if id in table.essential && !exposed {
        return EssentialRefused;
      }
      var state := ReadFlags(table, flags);
      state := state[id := exposed];
      assert state == ReadFlags(table, flags) + map[id := exposed];
      if saved {
        flags := Some(state);
      }
      var ok := ApplyState(w);
      reply := if ok then Ok else ApplyFailed;
    }

    method BulkToggle(wanted: Flags, saved: bool, w: World) returns (reply: Reply)
      modifies this
      ensures Abs() == Step(old(Abs()), Event(Bulk(wanted), saved, w))
      ensures reply == if Succeeds(w, old(base)) then Ok else ApplyFailed
    {
      var state := MergeAccepted(table, ReadFlags(table, flags), wanted);
      if saved {
        flags := Some(state);
      }
      var ok := ApplyState(w);
      reply := if ok then Ok else ApplyFailed;
    }
  }

  /** The loop of the bulk request. The entries are visited in an arbitrary order. */
  method MergeAccepted(t: Table, start: Flags, wanted: Flags) returns (state: Flags)
    ensures state == start + Accepted(t, wanted)
  {
    state := start;
    ghost var accepted := Accepted(t, wanted).Keys;
    var rest := wanted.Keys;
    while rest != {}
      invariant rest <= wanted.Keys
      invariant state == start + (map id | id in accepted && id !in rest :: wanted[id])
      decreases rest
    {
      var id :| id in rest;
      rest := rest - {id};
      if id !in t.services {
        continue;
      }
      if id in t.essential && !wanted[id] {
        continue;
      }
      state := state[id := wanted[id]];
    }
    assert (map id | id in accepted && id !in rest :: wanted[id]) == Accepted(t, wanted);
  }

  // ---------- Runs ----------

  ghost predicate InSync(s: State) {
    s.base.Some? && s.installed == Wanted(s.table, s.base.value, s.domains, ReadFlags(s.table, s.flags))
  }

  predicate Works(e: Event) {
    e.saved && e.w.docker && e.w.write.Written?
  }

  lemma StepKeepsBase(s: State, e: Event)
    requires s.base.Some?
    ensures Step(s, e).base == s.base && Step(s, e).domains == s.domains && Step(s, e).table == s.table
  {
  }

  lemma AppliedIsInSync(s: State, w: World)
    requires s.base.Some? && w.docker && w.write.Written?
    ensures InSync(Applied(s, w))
    ensures Applied(s, w).base == s.base && Applied(s, w).domains == s.domains && Applied(s, w).table == s.table
  {
  }

  lemma StepKeepsSync(s: State, e: Event)
    requires InSync(s) && Works(e)
    ensures InSync(Step(s, e)) && Step(s, e).base == s.base && Step(s, e).domains == s.domains &&
      Step(s, e).table == s.table
  {
    match Changes(s.table, e.request)
    case None =>
    case Some(changes) =>
      var flags := if !e.request.Apply? then Some(ReadFlags(s.table, s.flags) + changes) else s.flags;
      AppliedIsInSync(s.(flags := flags), e.w);
  }

  lemma {:induction false} RunKeepsBase(s: State, events: seq<Event>)
    requires s.base.Some?
    ensures Run(s, events).base == s.base && Run(s, events).domains == s.domains && Run(s, events).table == s.table
    decreases events
  {
    if events != [] {
      StepKeepsBase(s, events[0]);
      RunKeepsBase(Step(s, events[0]), events[1..]);
    }
  }

  /** However the requests went before, one that is carried out brings the container in line with base and flags. */
  lemma AnyRunThenWorkingRequest(s: State, events: seq<Event>, e: Event)
    requires s.base.Some? && e.w.docker && e.w.write.Written? && Changes(s.table, e.request).Some?
    ensures var t := Step(Run(s, events), e);
      t.installed == Wanted(s.table, s.base.value, s.domains, ReadFlags(s.table, t.flags))
  {
    RunKeepsBase(s, events);
  }

  /** While every request works, each state on the way is in sync, and the text depends on base and flags alone. */
  lemma {:induction false} WorkingRunStaysInSync(s: State, events: seq<Event>)
    requires InSync(s) && forall e :: e in events ==> Works(e)
    ensures InSync(Run(s, events)) && Run(s, events).base == s.base && Run(s, events).domains == s.domains &&
      Run(s, events).table == s.table
    decreases events
  {
    if events != [] {
      assert events[0] in events;
      StepKeepsSync(s, events[0]);
      WorkingRunStaysInSync(Step(s, events[0]), events[1..]);
    }
  }

  /** Two working runs from the same base that end with the same flags have installed the same bytes. */
  lemma SameFlagsSameText(s: State, run1: seq<Event>, run2: seq<Event>)
    requires InSync(s)
    requires forall e :: e in run1 ==> Works(e)
    requires forall e :: e in run2 ==> Works(e)
    requires ReadFlags(s.table, Run(s, run1).flags) == ReadFlags(s.table, Run(s, run2).flags)
    ensures Run(s, run1).installed == Run(s, run2).installed
  {
    WorkingRunStaysInSync(s, run1);
    WorkingRunStaysInSync(s, run2);
  }

  /** Blocking an exposed service and exposing it again gives back the installed text byte for byte. */
  lemma OffThenOn(s: State, id: string, w1: World, w2: World)
    requires InSync(s) && id in s.table.services && id !in s.table.essential
    requires id in ReadFlags(s.table, s.flags) && ReadFlags(s.table, s.flags)[id]
    requires w1.docker && w1.write.Written? && w2.docker && w2.write.Written?
    ensures Step(Step(s, Event(Toggle(id, false), true, w1)), Event(Toggle(id, true), true, w2)).installed ==
      s.installed
  {
    var f := ReadFlags(s.table, s.flags);
    assert f[id := false][id := true] == f;
    var off := Step(s, Event(Toggle(id, false), true, w1));
    ToggleInSync(s, id, false, w1);
    ToggleInSync(off, id, true, w2);
  }

  lemma ToggleInSync(s: State, id: string, exposed: bool, w: World)
    requires InSync(s) && id in s.table.services && id !in s.table.essential
    requires w.docker && w.write.Written?
    ensures var t := Step(s, Event(Toggle(id, exposed), true, w));
      InSync(t) && t.base == s.base && t.domains == s.domains && t.table == s.table &&
      ReadFlags(t.table, t.flags) == ReadFlags(s.table, s.flags)[id := exposed]
  {
    SingleFlag(s, map[id := exposed], id, w);
    StepKeepsSync(s, Event(Toggle(id, exposed), true, w));
  }

  /** The single toggles that make up a bulk request, in the order given. */
  function Singles(wanted: Flags, order: seq<string>, w: World): seq<Event>
    requires forall id :: id in order ==> id in wanted
  {
    if order == [] then []
    else [Event(Toggle(order[0], wanted[order[0]]), true, w)] + Singles(wanted, order[1..], w)
  }

  lemma SingleFlag(s: State, wanted: Flags, id: string, w: World)
    requires id in wanted
    ensures ReadFlags(s.table, Step(s, Event(Toggle(id, wanted[id]), true, w)).flags) ==
      if id in Accepted(s.table, wanted) then ReadFlags(s.table, s.flags)[id := wanted[id]]
      else ReadFlags(s.table, s.flags)
  {
  }

  lemma FlagsAddUp(f: Flags, wanted: Flags, accepted: set<string>, order: seq<string>)
    requires order != [] && order[0] in wanted && accepted <= wanted.Keys
    ensures
      var g := if order[0] in accepted then f[order[0] := wanted[order[0]]] else f;
      g + (map id | id in order[1..] && id in accepted :: wanted[id]) ==
      f + (map id | id in order && id in accepted :: wanted[id])
  {
  }

  lemma {:induction false} SinglesFlags(s: State, wanted: Flags, order: seq<string>, w: World)
    requires forall id :: id in order ==> id in wanted
    ensures ReadFlags(s.table, Run(s, Singles(wanted, order, w)).flags) ==
      ReadFlags(s.table, s.flags) + (map id | id in order && id in Accepted(s.table, wanted) :: wanted[id])
    decreases order
  {
    if order != [] {
      var e := Event(Toggle(order[0], wanted[order[0]]), true, w);
      SinglesFlags(Step(s, e), wanted, order[1..], w);
      SingleFlag(s, wanted, order[0], w);
      assert ([e] + Singles(wanted, order[1..], w))[1..] == Singles(wanted, order[1..], w);
      FlagsAddUp(ReadFlags(s.table, s.flags), wanted, Accepted(s.table, wanted).Keys, order);
    }
  }

  lemma BulkFlags(s: State, wanted: Flags, order: seq<string>, w: World)
    requires forall id :: id in order <==> id in wanted
    ensures ReadFlags(s.table, Step(s, Event(Bulk(wanted), true, w)).flags) ==
      ReadFlags(s.table, s.flags) + (map id | id in order && id in Accepted(s.table, wanted) :: wanted[id])
  {
  }

  /** A bulk request ends where the single toggles end, in whatever order and however often they are made. */
  lemma BulkIsSingles(s: State, wanted: Flags, order: seq<string>, w: World)
    requires InSync(s) && w.docker && w.write.Written?
    requires forall id :: id in order <==> id in wanted
    ensures
      var bulk, singles := Step(s, Event(Bulk(wanted), true, w)), Run(s, Singles(wanted, order, w));
      ReadFlags(s.table, bulk.flags) == ReadFlags(s.table, singles.flags) && bulk.installed == singles.installed
  {
    var bulk, events := Event(Bulk(wanted), true, w), Singles(wanted, order, w);
    BulkFlags(s, wanted, order, w);
    SinglesFlags(s, wanted, order, w);
    SinglesWork(wanted, order, w);
    WorkingRunStaysInSync(s, events);
    StepKeepsSync(s, bulk);
  }

  lemma {:induction false} SinglesWork(wanted: Flags, order: seq<string>, w: World)
    requires w.docker && w.write.Written?
    requires forall id :: id in order ==> id in wanted
    ensures forall e :: e in Singles(wanted, order, w) ==> Works(e)
  {
    if order != [] {
      SinglesWork(wanted, order[1..], w);
    }
  }

  /** Toggling one service decides the lines of its own routers' blocks, and leaves every other line as it was. */
  lemma ToggleIsExact(t: Table, base: string, flags: Flags, id: string, exposed: bool, i: int)
    requires OneServiceEach(t) && 0 <= i < |Split(base)|
    ensures
      var lines := Split(base);
      var before, after := Commented(lines, BlockKeys(t, flags)), Commented(lines, BlockKeys(t, flags[id := exposed]));
      after[i] == if !LineBlocked(lines, RouterKeys(t, id), i) then before[i]
                  else if exposed then lines[i] else "#BLOCKED# " + lines[i]
  {
    var ks, a, b := Kinds(Split(base)), BlockKeys(t, flags), BlockKeys(t, flags[id := exposed]);
    ToggledKeys(t, flags, id, exposed);
    KindsFit(Split(base));
    FitBlocked(ks, Split(base), RouterKeys(t, id), i);
    if key :| key in RouterKeys(t, id) && Owns(ks, key, i) {
      forall other | Owns(ks, other, i) ensures other == key {
        OwnerIsUnique(ks, other, key, i);
      }
      assert Blocked(ks, b, i) <==> key in b;
    } else {
      assert Blocked(ks, a, i) <==> Blocked(ks, b, i);
    }
  }

  lemma ToggledKeys(t: Table, flags: Flags, id: string, exposed: bool)
    requires OneServiceEach(t)
    ensures forall key :: key in BlockKeys(t, flags[id := exposed]) <==>
      if key in RouterKeys(t, id) then !exposed else key in BlockKeys(t, flags)
  {
    var a, b := BlockKeys(t, flags), BlockKeys(t, flags[id := exposed]);
    forall key ensures key in b <==> if key in RouterKeys(t, id) then !exposed else key in a {
      if key in a {
        var x :| x in flags && !flags[x] && key in RouterKeys(t, x);
        assert x == id || (x in flags[id := exposed] && !flags[id := exposed][x]);
      }
      if key in b {
        var x :| x in flags[id := exposed] && !flags[id := exposed][x] && key in RouterKeys(t, x);
        assert key in RouterKeys(t, id) ==> x == id;
      }
      if key in RouterKeys(t, id) && !exposed {
        assert id in flags[id := exposed] && !flags[id := exposed][id];
      }
    }
  }

  // ---------- Before a base is saved ----------

  /**
  The first request that gets through to the container takes the text installed there for the base, and saves
  that.
  */
  lemma FirstRequest(s: State, e: Event)
    requires s.base.None? && e.w.docker && e.w.copy && Changes(s.table, e.request).Some?
    ensures var t := Step(s, e);
      t.base == (if e.w.saveBase then Some(s.installed) else None) && t.domains == s.domains && t.table == s.table &&
      t.installed == (if e.w.write.Written?
                      then Wanted(s.table, s.installed, s.domains, ReadFlags(s.table, t.flags)) else e.w.write.left)
  {
  }

  /** Every call of the request works, those on the base included. */
  predicate AllWorks(e: Event) {
    Works(e) && e.w.copy && e.w.saveBase
  }

  /**
  A run in which every call works keeps the text found at the start as its base, and is in sync with it from the
  first change on.
  */
  lemma {:induction false} RunFromScratch(s: State, events: seq<Event>)
    requires s.base.None? && forall e :: e in events ==> AllWorks(e)
    ensures
      var t := Run(s, events);
      if forall e :: e in events ==> Changes(s.table, e.request).None? then t == s
      else t.base == Some(s.installed) && InSync(t) && t.domains == s.domains && t.table == s.table
    decreases events
  {
    if events != [] {
      var e := events[0];
      assert e in events && forall x :: x in events[1..] ==> x in events;
      assert forall x :: x in events ==> x == e || x in events[1..];
      if Changes(s.table, e.request).None? {
        RunFromScratch(s, events[1..]);
      } else {
        FirstRequest(s, e);
        WorkingRunStaysInSync(Step(s, e), events[1..]);
      }
    }
  }

  /** Blocking a service as the very first request and exposing it again installs what applying alone would. */
  lemma OffThenOnFromScratch(s: State, id: string, w1: World, w2: World, w: World)
    requires s.base.None? && id in s.table.services && id !in s.table.essential
    requires id in ReadFlags(s.table, s.flags) && ReadFlags(s.table, s.flags)[id]
    requires forall x :: x in {Event(Toggle(id, false), true, w1), Event(Apply, true, w)} ==> AllWorks(x)
    requires w2.docker && w2.write.Written?
    ensures Step(Step(s, Event(Toggle(id, false), true, w1)), Event(Toggle(id, true), true, w2)).installed ==
      Step(s, Event(Apply, true, w)).installed
  {
    var f := ReadFlags(s.table, s.flags);
    var off := Step(s, Event(Toggle(id, false), true, w1));
    assert f[id := false][id := true] == f;
    assert AllWorks(Event(Toggle(id, false), true, w1)) && AllWorks(Event(Apply, true, w));
    FirstRequest(s, Event(Toggle(id, false), true, w1));
    SingleFlag(s, map[id := false], id, w1);
    ToggleInSync(off, id, true, w2);
    FirstRequest(s, Event(Apply, true, w));
  }

  /** With no flags saved nothing is blocked: applying installs the text found there, with the domain routers in it. */
  lemma FirstApplyExposesAll(s: State, w: World)
    requires s.base.None? && s.flags.None? && AllWorks(Event(Apply, true, w))
    ensures Step(s, Event(Apply, true, w)).installed == Inject(s.installed, s.domains)
  {
    FirstRequest(s, Event(Apply, true, w));
    assert BlockKeys(s.table, ReadFlags(s.table, None)) == {};
    NothingBlocked(Inject(s.installed, s.domains));
  }

  // ---------- What no request can do ----------

  /** Only known services have flags, and the essential ones are exposed. */
  predicate FlagsSound(t: Table, flags: Flags) {
    forall id :: id in flags ==> id in t.services && (id in t.essential ==> flags[id])
  }

  lemma StepKeepsFlagsSound(s: State, e: Event)
    requires FlagsSound(s.table, ReadFlags(s.table, s.flags))
    ensures Step(s, e).table == s.table && FlagsSound(s.table, ReadFlags(s.table, Step(s, e).flags))
  {
  }

  /** Over every run, whatever fails: no essential service is ever blocked, and no unknown one ever gets a flag. */
  lemma {:induction false} RunKeepsFlagsSound(s: State, events: seq<Event>)
    requires FlagsSound(s.table, ReadFlags(s.table, s.flags))
    ensures Run(s, events).table == s.table && FlagsSound(s.table, ReadFlags(s.table, Run(s, events).flags))
    decreases events
  {
    if events != [] {
      StepKeepsFlagsSound(s, events[0]);
      RunKeepsFlagsSound(Step(s, events[0]), events[1..]);
    }
  }
}
