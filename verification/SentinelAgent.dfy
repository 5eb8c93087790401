/**
The Sentinel agent's lifecycle: a stored stop channel, a running flag, and one loop per
channel that ends some time after its channel is closed.
*/
module SentinelAgent {
  import opened Wrappers

  datatype Health = Healthy | Error | Stopped

  /** sentinel-config.json as far as starting depends on it. */
  datatype Config = Config(enabled: bool, apiKey: string, model: string)

  predicate Startable(config: Option<Config>) {
    config.Some? && config.value.enabled && config.value.apiKey != "" && config.value.model != ""
  }

  /** A stop channel, and whether the one loop that waits on it is still going. */
  class StopChan {
    var closed: bool
    var looping: bool

    constructor ()
      ensures !closed && looping
    {
      closed, looping := false, true;
    }

    /** Closing a closed channel would panic. */
    method Close()
      requires !closed
      modifies `closed
      ensures closed
    {
      closed := true;
    }
  }

  // ---------- What health shows ----------

  /** The writes to health: by a start, by setRunning(false), and by a loop with its result. */
  datatype Event = Began | Halted | Reported(loop: StopChan, result: Health)

  /** Before any write the agent counts as stopped. */
  function HealthOf(events: seq<Event>): Health {
    if events == [] then Stopped
    else match events[|events| - 1]
      case Began => Healthy
      case Halted => Stopped
      case Reported(_, result) => result
  }

  predicate ReportedBy(e: Event, loop: StopChan) {
    e.Reported? && e.loop == loop
  }

  /** Health after the first `n` writes. */
  function HealthAt(events: seq<Event>, n: nat): Health
    requires n <= |events|
  {
    HealthOf(events[..n])
  }

  /** No loop reports that it has stopped. */
  predicate Genuine(events: seq<Event>) {
    forall i :: 0 <= i < |events| && events[i].Reported? ==> events[i].result != Stopped
  }

  /** The writes that are not reports of loops. */
  function Own(events: seq<Event>): seq<Event> {
    if events == [] then []
    else Own(events[..|events| - 1]) + if events[|events| - 1].Reported? then [] else [events[|events| - 1]]
  }

  /** With no reports among them the writes are all own, and health shows the last. */
  lemma {:induction false} OwnIsAll(events: seq<Event>)
    requires forall i :: 0 <= i < |events| ==> !events[i].Reported?
    ensures Own(events) == events
  {
    if events != [] {
      OwnIsAll(events[..|events| - 1]);
    }
  }

  /** Health when the last of some own writes after `from` is known and no report came. */
  lemma HealthAfterOwn(events: seq<Event>, from: nat, own: seq<Event>)
    requires from <= |events| && Own(events[from..]) == own && own != []
    ensures (forall i :: from <= i < |events| ==> !events[i].Reported?) ==>
      events != [] && events[|events| - 1] == own[|own| - 1]
  {
    if forall i :: from <= i < |events| ==> !events[i].Reported? {
      OwnIsAll(events[from..]);
      assert events[from..] == own;
      assert events[|events| - 1] == events[from..][|own| - 1];
    }
  }

  lemma OwnOfReports(events: seq<Event>, more: seq<Event>, from: nat)
    requires from <= |events| && events <= more
    requires forall i :: |events| <= i < |more| ==> more[i].Reported?
    ensures Own(more[from..]) == Own(events[from..])
    decreases |more|
  {
    if |more| == |events| {
      assert more == events;
    } else {
      OwnOfReports(events, more[..|more| - 1], from);
      assert more[from..][..|more| - from - 1] == more[..|more| - 1][from..];
    }
  }

  lemma OwnOneMore(events: seq<Event>, e: Event, from: nat)
    requires from <= |events| && !e.Reported?
    ensures Own((events + [e])[from..]) == Own(events[from..]) + [e]
  {
    assert (events + [e])[from..] == events[from..] + [e];
    assert (events[from..] + [e])[..|events[from..]|] == events[from..];
  }

  /** From a stop until the next start health shows "stopped" all the time exactly when no loop reports in between. */
  lemma StaysStopped(events: seq<Event>, since: nat)
    requires since < |events| && events[since] == Halted && Genuine(events)
    requires forall i :: since < i < |events| ==> events[i] != Began
    ensures (forall n :: since < n <= |events| ==> HealthAt(events, n) == Stopped) <==>
            (forall i :: since < i < |events| ==> !events[i].Reported?)
  {
    if i :| since < i < |events| && events[i].Reported? {
      assert HealthAt(events, i + 1) == events[i].result;
    }
  }

  // ---------- The agent ----------

  /** The global agent. agentMu is free between calls of Start and Stop, and held during each of them. */
  class Agent {
    var agentStopCh: StopChan?
    var running: bool
    var health: Health
    ghost var chans: set<StopChan>   // every stop channel ever made
    ghost var events: seq<Event>     // every write to health

    /**
    Of all stop channels only the stored one is open, and its loop is going. This holds whether or not agentMu
    is held.
    */
    ghost predicate OneOpen()
      reads this, chans
    {
      (agentStopCh != null ==> agentStopCh in chans && !agentStopCh.closed && agentStopCh.looping) &&
      forall c :: c in chans && c != agentStopCh ==> c.closed
    }

    /** Health shows the latest write. */
    ghost predicate Shows()
      reads this
    {
      health == HealthOf(events) && Genuine(events)
    }

    /** While agentMu is free, the running flag says that a stop channel is stored. */
    ghost predicate Valid()
      reads this, chans
    {
      OneOpen() && Shows() && (running <==> agentStopCh != null)
    }

    /** Every report since then came from a loop that was going then, or that has been started since. */
    twostate predicate ReportsFromLoops()
      reads this, chans
    {
      old(chans) <= chans && old(events) <= events &&
      (forall i :: |old(events)| <= i < |events| && events[i].Reported? ==> events[i].loop in chans) &&
      (forall i, c ::
        |old(events)| <= i < |events| && ReportedBy(events[i], c) && c in old(chans) ==> old(c.looping)) &&
      (forall c :: c in old(chans) && c.looping ==> old(c.looping))
    }

    /** Nothing but reports since then, and no loop has ended whose channel is open. */
    twostate predicate LoopsActed()
      reads this, chans
    {
      ReportsFromLoops() && Shows() && chans == old(chans) &&
      (forall i :: |old(events)| <= i < |events| ==> events[i].Reported?) &&
      (forall c :: c in old(chans) && !c.closed ==> c.looping == old(c.looping))
    }

    constructor ()
      ensures Valid() && agentStopCh == null && chans == {} && events == []
    {
      agentStopCh, running, health, chans, events := null, false, Stopped, {}, [];
    }

    /** A loop whose channel is open or closed writes its result; only health is shared. */
    method LoopReports(c: StopChan, result: Health)
      requires Shows() && c in chans && c.looping && result != Stopped
      modifies `health, `events
      ensures LoopsActed() && events == old(events) + [Reported(c, result)] && health == result
    {
      health := result;
      events := events + [Reported(c, result)];
    }

    /** A loop sees its channel closed and returns. */
    method LoopEnds(c: StopChan)
      requires Shows() && c in chans && c.looping && c.closed
      modifies c`looping
      ensures LoopsActed() && events == old(events) && !c.looping
    {
      c.looping := false;
    }

    /** What the loops may do between any two steps, whether or not agentMu is held. */
    method LoopsGoOn()
      requires Shows()
      modifies `health, `events, chans`looping
      ensures LoopsActed()
    {
    }

    method SetRunning(v: bool)
      requires Shows()
      modifies `running, `health, `events
      ensures running == v && Shows() && events == if v then old(events) else old(events) + [Halted]
    {
      running := v;
      if !v {
        health := Stopped;
        events := events + [Halted];
      }
    }

    /** setRunning(false), the loops going on before the next step; `from` is where the handler's own writes begin. */
    method SetStopped(ghost from: nat)
      requires Shows() && from <= |events|
      modifies `running, `health, `events, chans`looping
      ensures !running && Shows() && ReportsFromLoops() && chans == old(chans)
      ensures Own(events[from..]) == Own(old(events)[from..]) + [Halted]
      ensures forall c :: c in chans && !c.closed ==> c.looping == old(c.looping)
    {
      SetRunning(false);
      ghost var h := events;
      OwnOneMore(old(events), Halted, from);
      LoopsGoOn();
      OwnOfReports(h, events, from);
    }

    /** The block that starting and stopping begin with. */
    method HaltStored()
      requires Valid()
      modifies `agentStopCh, `running, `health, `events, chans
      ensures Valid() && agentStopCh == null && ReportsFromLoops() && chans == old(chans)
      ensures Own(events[|old(events)|..]) == if old(running) then [Halted] else []
      ensures forall c :: c in chans ==> c.closed
      ensures !old(running) ==> forall i :: |old(events)| <= i < |events| ==> events[i].Reported?
    {
      if agentStopCh != null {
        agentStopCh.Close();
        agentStopCh := null;
        SetStopped(|events|);
      } else {
        LoopsGoOn();
        OwnOfReports(old(events), events, |old(events)|);
      }
    }

    /**
    StartSentinelAgent. Its own writes to health are fixed; reports of loops may come before, between and after
    them.
    */
    method Start(config: Option<Config>)
      requires Valid()
      modifies this, chans
      ensures Valid() && (running <==> Startable(config)) && ReportsFromLoops()
      ensures Own(events[|old(events)|..]) ==
        (if old(running) then [Halted] else []) + [if Startable(config) then Began else Halted]
      ensures forall c :: c in old(chans) ==> c.closed
      ensures running <==> config.Some? && config.value.enabled && config.value.apiKey != "" && config.value.model != ""
      ensures (forall i :: |old(events)| <= i < |events| ==> !events[i].Reported?) ==>
        health == if running then Healthy else Stopped
      ensures if Startable(config)
              then agentStopCh != null && fresh(agentStopCh) && agentStopCh.looping &&
              chans == old(chans) + {agentStopCh}
              else chans == old(chans)
    {
      HaltStored();
      LaunchOrNot(config, |old(events)|);
      HealthAfterOwn(events, |old(events)|, Own(events[|old(events)|..]));
    }

    /** The rest of StartSentinelAgent. */
    method LaunchOrNot(config: Option<Config>, ghost from: nat)
      requires Valid() && agentStopCh == null && from <= |events| && forall c :: c in chans ==> c.closed
      modifies this, chans
      ensures Valid() && ReportsFromLoops() && (running <==> Startable(config))
      ensures Own(events[from..]) == Own(old(events)[from..]) + [if Startable(config) then Began else Halted]
      ensures forall c :: c in old(chans) ==> c.closed
      ensures if Startable(config)
              then agentStopCh != null && fresh(agentStopCh) && agentStopCh.looping &&
              chans == old(chans) + {agentStopCh}
              else chans == old(chans)
    {
      if config.None? {
        SetStopped(from);
        return;
      }
      if !config.value.enabled {
        SetStopped(from);
        return;
      }
      if config.value.apiKey == "" {
        SetStopped(from);
        return;
      }
      if config.value.model == "" {
        SetStopped(from);
        return;
      }
      Begin(from);
    }

    /** A new stop channel and its loop. */
    method Begin(ghost from: nat)
      requires Valid() && agentStopCh == null && from <= |events| && forall c :: c in chans ==> c.closed
      modifies this, chans`looping
      ensures Valid() && running && ReportsFromLoops()
      ensures Own(events[from..]) == Own(old(events)[from..]) + [Began]
      ensures agentStopCh != null && fresh(agentStopCh) && agentStopCh.looping && chans == old(chans) + {agentStopCh}
    {
      var stopChan := new StopChan();
      agentStopCh := stopChan;
      chans := chans + {stopChan};
      running := true;
      health := Healthy;
      events := events + [Began];
      ghost var h := events;
      OwnOneMore(old(events), Began, from);
      LoopsGoOn();
      OwnOfReports(h, events, from);
    }

    /** StopSentinelAgent. */
    method Stop()
      requires Valid()
      modifies this, chans
      ensures Valid() && !running && chans == old(chans) && ReportsFromLoops()
      ensures Own(events[|old(events)|..]) == if old(running) then [Halted] else []
      ensures forall c :: c in chans ==> c.closed
      ensures !old(running) ==> forall i :: |old(events)| <= i < |events| ==> events[i].Reported?
    {
      HaltStored();
    }

    /** What other goroutines may do while agentMu is free: any starts, stops, restarts and loop steps. */
    method Others()
      requires Valid()
      modifies this, chans
      ensures Valid() && old(chans) <= chans && old(events) <= events && fresh(chans - old(chans))
      ensures forall c :: c in old(chans) ==> (old(c.closed) ==> c.closed) && (c.looping ==> old(c.looping))
    {
    }

    /** RestartSentinelAgent. Between its two halves anybody may start or stop the agent. */
    method Restart(config: Option<Config>)
      requires Valid()
      modifies this, chans
      ensures Valid() && (running <==> Startable(config)) && old(chans) <= chans && old(events) <= events
      ensures forall c :: c in chans && c != agentStopCh ==> c.closed
      ensures forall c :: c in old(chans) ==> c.closed
    {
      Stop();
      Others();
      Start(config);
    }

    /** A stopped agent whose loops have all ended goes on showing what it shows. */
    method QuietAgentStaysAsItIs()
      requires Valid() && !running && forall c :: c in chans ==> !c.looping
      modifies `health, `events, chans`looping
      ensures Valid() && !running && events == old(events) && health == old(health)
    {
      LoopsGoOn();
    }

    /** As long as one loop is still going, on a closed channel now, the stopped agent may come to show its result. */
    method StoppedAgentCanLookAlive(c: StopChan, result: Health)
      requires Valid() && !running && c in chans && c.looping && result != Stopped
      modifies `health, `events, chans`looping
      ensures Valid() && !running && c.closed && health == result && LoopsActed()
    {
      LoopReports(c, result);
    }
  }
}
