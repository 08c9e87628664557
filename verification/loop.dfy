/** One pass of `monitor_loop` as the source writes it: mutable
    `container_down` and `last_alerts` dictionaries, a loop over the
    configured containers, and an inner loop over the subscribers for every
    message. The WhatsApp bot (src/main.py) and the Telegram bot
    (monitor.py) run the same loop; only the message text and the transport
    differ. The pass is shown to agree with the functional tick. */
module MonitorLoop {
  import opened Optional
  import opened Config
  import opened Probe
  import opened Alerts
  import opened Sink

  /** Send `a` to every subscriber after the deliveries made so far. */
  method Send<Id>(subs: set<Id>, ghost alerts: seq<Alert>, sent: seq<Delivery<Id>>, a: Alert)
    returns (sent': seq<Delivery<Id>>)
    requires IsFanOut(sent, alerts, subs)
    ensures IsFanOut(sent', alerts + [a], subs)
    ensures |sent'| == |sent| + |subs|
  {
    var block := Broadcast(subs, a);
    FanOutSnoc(sent, alerts, block, a, subs);
    sent' := sent + block;
  }

  /** The body of the `for name in CONTAINERS` loop. */
  method Visit<Id>(cfg: Settings, down: map<string, bool>, last: map<string, real>, subs: set<Id>,
                   now: real, name: string, stats: Option<Sample>,
                   ghost alerts: seq<Alert>, sent: seq<Delivery<Id>>)
    returns (down': map<string, bool>, last': map<string, real>, sent': seq<Delivery<Id>>, ghost alerts': seq<Alert>)
    requires IsFanOut(sent, alerts, subs)
    ensures AlertState(down', last') == Step(cfg, AlertState(down, last), name, now, stats).state
    ensures alerts' == alerts + Step(cfg, AlertState(down, last), name, now, stats).alerts
    ensures IsFanOut(sent', alerts', subs)
  {
    if stats.None? {
      down', last', sent', alerts' := Lost(cfg, down, last, subs, now, name, alerts, sent);
    } else {
      down', last', sent', alerts' := Probed(cfg, down, last, subs, now, name, stats.value, alerts, sent);
    }
  }

  /** `stats is None`: a "down" alert on the first failure after the
      cooldown. */
  method Lost<Id>(cfg: Settings, down: map<string, bool>, last: map<string, real>, subs: set<Id>,
                  now: real, name: string, ghost alerts: seq<Alert>, sent: seq<Delivery<Id>>)
    returns (down': map<string, bool>, last': map<string, real>, sent': seq<Delivery<Id>>, ghost alerts': seq<Alert>)
    requires IsFanOut(sent, alerts, subs)
    ensures AlertState(down', last') == Step(cfg, AlertState(down, last), name, now, None).state
    ensures alerts' == alerts + Step(cfg, AlertState(down, last), name, now, None).alerts
    ensures IsFanOut(sent', alerts', subs)
  {
    down', last', sent', alerts' := down, last, sent, alerts;
    var since := now - (if name in last then last[name] else 0.0);
    if !(name in down && down[name]) && since >= cfg.cooldown as real {
      sent' := Send(subs, alerts', sent', Down(name));
      alerts' := alerts' + [Down(name)];
      last' := last'[name := now];
      down' := down'[name := true];
    } else {
      assert alerts + [] == alerts;
    }
  }

  /** The threshold checks of `main.py`, in the order the message lists
      them. */
  method Collect(cfg: Settings, s: Sample) returns (msg: seq<Breach>)
    ensures msg == Breaches(cfg, s)
    ensures msg != [] <==> s.cpu > cfg.cpuLimit || s.mem > cfg.memLimit
  {
    msg := [];
    if s.cpu > cfg.cpuLimit {
      msg := msg + [CpuHigh(s.cpu)];
    }
    if s.mem > cfg.memLimit {
      msg := msg + [MemHigh(s.mem, s.usedMb, s.limitMb)];
    }
  }

  /** Stats arrived: a "recovered" alert if the container was down, then
      the threshold alert if a limit is exceeded and the cooldown allows. */
  method Probed<Id>(cfg: Settings, down: map<string, bool>, last: map<string, real>, subs: set<Id>,
                    now: real, name: string, s: Sample, ghost alerts: seq<Alert>, sent: seq<Delivery<Id>>)
    returns (down': map<string, bool>, last': map<string, real>, sent': seq<Delivery<Id>>, ghost alerts': seq<Alert>)
    requires IsFanOut(sent, alerts, subs)
    ensures AlertState(down', last') == Step(cfg, AlertState(down, last), name, now, Some(s)).state
    ensures alerts' == alerts + Step(cfg, AlertState(down, last), name, now, Some(s)).alerts
    ensures IsFanOut(sent', alerts', subs)
  {
    var down1, sent1, alerts1, recovery := Recover(down, subs, name, alerts, sent);
    var msg := Collect(cfg, s);
    down' := down1;
    last', sent', alerts' := Gate(cfg, last, subs, now, name, msg, alerts1, sent1);
    ghost var st := AlertState(down, last);
    ghost var st1 := AlertState(down1, last);
    assert st1 == if IsDown(st, name) then st.(down := st.down[name := false]) else st;
    if msg != [] && CooledDown(cfg, st1, name, now) {
      assert alerts' == alerts + (recovery + [Threshold(name, msg)]);
    } else {
      assert alerts' == alerts + recovery;
    }
  }

  /** `if container_down.get(name)`: announce the recovery and clear the
      flag. */
  method Recover<Id>(down: map<string, bool>, subs: set<Id>, name: string,
                     ghost alerts: seq<Alert>, sent: seq<Delivery<Id>>)
    returns (down': map<string, bool>, sent': seq<Delivery<Id>>, ghost alerts': seq<Alert>, ghost recovery: seq<Alert>)
    requires IsFanOut(sent, alerts, subs)
    ensures down' == if name in down && down[name] then down[name := false] else down
    ensures recovery == (if name in down && down[name] then [Recovered(name)] else [])
    ensures alerts' == alerts + recovery
    ensures IsFanOut(sent', alerts', subs)
  {
    down', sent', alerts', recovery := down, sent, alerts, [];
    if name in down && down[name] {
      sent' := Send(subs, alerts, sent, Recovered(name));
      recovery := [Recovered(name)];
      alerts' := alerts + recovery;
      down' := down[name := false];
    } else {
      assert alerts + [] == alerts;
    }
  }

  /** `if msg and now - last_alerts.get(name, 0) >= COOLDOWN`: send the
      threshold alert and restart the cooldown. */
  method Gate<Id>(cfg: Settings, last: map<string, real>, subs: set<Id>, now: real, name: string,
                  msg: seq<Breach>, ghost alerts: seq<Alert>, sent: seq<Delivery<Id>>)
    returns (last': map<string, real>, sent': seq<Delivery<Id>>, ghost alerts': seq<Alert>)
    requires IsFanOut(sent, alerts, subs)
    ensures var fire := msg != [] && now - (if name in last then last[name] else 0.0) >= cfg.cooldown as real;
            last' == if fire then last[name := now] else last
    ensures var fire := msg != [] && now - (if name in last then last[name] else 0.0) >= cfg.cooldown as real;
            alerts' == alerts + (if fire then [Threshold(name, msg)] else [])
    ensures IsFanOut(sent', alerts', subs)
  {
    last', sent', alerts' := last, sent, alerts;
    var since := now - (if name in last then last[name] else 0.0);
    if msg != [] && since >= cfg.cooldown as real {
      sent' := Send(subs, alerts, sent, Threshold(name, msg));
      alerts' := alerts + [Threshold(name, msg)];
      last' := last[name := now];
    } else {
      assert alerts + [] == alerts;
    }
  }

  /** The sweep over one more container is the sweep so far followed by
      that container's step. */
  lemma SweepPrefix(cfg: Settings, st: AlertState, names: seq<string>, now: real,
                    samples: seq<Option<Sample>>, i: nat, cur: AlertState, alerts: seq<Alert>)
    requires |samples| == |names| && i < |names|
    requires Sweep(cfg, st, names[..i], now, samples[..i]) == Swept(cur, alerts)
    ensures var step := Step(cfg, cur, names[i], now, samples[i]);
            Sweep(cfg, st, names[..i + 1], now, samples[..i + 1]) == Swept(step.state, alerts + step.alerts)
  {
    assert names[..i + 1][..i] == names[..i];
    assert samples[..i + 1][..i] == samples[..i];
  }

  /** The `for name in CONTAINERS` loop: every container is probed once,
      in configuration order, and every alert of the sweep is sent to every
      subscriber, in the same order. */
  method SweepAll<Id>(cfg: Settings, down: map<string, bool>, last: map<string, real>, subs: set<Id>,
                      now: real, names: seq<string>, samples: seq<Option<Sample>>)
    returns (down': map<string, bool>, last': map<string, real>, sent: seq<Delivery<Id>>, probed: seq<string>)
    requires |samples| == |names|
    ensures var r := Sweep(cfg, AlertState(down, last), names, now, samples);
            && AlertState(down', last') == r.state
            && probed == names
            && IsFanOut(sent, r.alerts, subs)
  {
    down', last', sent, probed := down, last, [], [];
    ghost var alerts: seq<Alert> := [];
    var i := 0;
    while i < |names|
      invariant 0 <= i <= |names|
      invariant Sweep(cfg, AlertState(down, last), names[..i], now, samples[..i])
                == Swept(AlertState(down', last'), alerts)
      invariant IsFanOut(sent, alerts, subs)
      invariant probed == names[..i]
    {
      var name := names[i];
      var stats := samples[i];
      probed := probed + [name];
      assert probed == names[..i + 1];
      SweepPrefix(cfg, AlertState(down, last), names, now, samples, i, AlertState(down', last'), alerts);
      down', last', sent, alerts := Visit(cfg, down', last', subs, now, name, stats, alerts, sent);
      i := i + 1;
    }
    assert names[..i] == names;
    assert samples[..i] == samples;
  }

  /** One pass: nothing when nobody is subscribed; otherwise the sweep over
      the configured containers, leaving the dictionaries as the functional
      tick does and sending its alerts to every subscriber. */
  method MonitorPass<Id>(cfg: Settings, down: map<string, bool>, last: map<string, real>, subs: set<Id>,
                         now: real, samples: seq<Option<Sample>>)
    returns (down': map<string, bool>, last': map<string, real>, sent: seq<Delivery<Id>>, probed: seq<string>)
    requires |samples| == |cfg.containers|
    ensures var t := Tick(cfg, AlertState(down, last), subs, now, samples);
            && AlertState(down', last') == t.state
            && probed == t.probed
            && IsFanOut(sent, t.alerts, subs)
  {
    if subs == {} {
      down', last', sent, probed := down, last, [], [];
    } else {
      down', last', sent, probed := SweepAll(cfg, down, last, subs, now, cfg.containers, samples);
    }
  }
}
