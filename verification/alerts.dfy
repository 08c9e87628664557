/** The alerting tick shared by both bots (`monitor_loop` in src/main.py and
    in monitor.py): per container, a down flag and the time of the last
    alert, updated by an edge-triggered, cooldown-gated state machine. The
    tick is a pure function of the state, the subscriber set, the clock
    reading and one probe result per configured container; it returns the
    new state and the alerts to fan out, in the order they are sent. */
module Alerts {
  import opened Optional
  import opened Config
  import opened Probe

  /** `container_down` and `last_alerts`: two maps keyed by container name. */
  datatype AlertState = AlertState(down: map<string, bool>, lastAlert: map<string, real>)

  /** What the two maps say about one container. */
  datatype View = View(down: bool, last: real)

  /** Both maps start empty at process start. */
  function Initial(): AlertState {
    AlertState(map[], map[])
  }

  /** `container_down.get(name)` is truthy. */
  predicate IsDown(st: AlertState, name: string) {
    name in st.down && st.down[name]
  }

  /** `last_alerts.get(name, 0)` */
  function LastAlert(st: AlertState, name: string): real {
    if name in st.lastAlert then st.lastAlert[name] else 0.0
  }

  function ViewOf(st: AlertState, name: string): View {
    View(IsDown(st, name), LastAlert(st, name))
  }

  /** `now - last_alerts.get(name, 0) >= COOLDOWN` */
  predicate CooledDown(cfg: Settings, st: AlertState, name: string, now: real) {
    now - LastAlert(st, name) >= cfg.cooldown as real
  }

  /** One line of a threshold message. */
  datatype Breach = CpuHigh(cpu: real) | MemHigh(mem: real, usedMb: nat, limitMb: nat)

  /** The three kinds of outbound alert; the message text is not modelled. */
  datatype Alert =
    | Down(name: string)
    | Recovered(name: string)
    | Threshold(name: string, breaches: seq<Breach>)
  {
    /** The kinds that wait for the cooldown and stamp `last_alerts`. */
    predicate Gated() {
      Down? || Threshold?
    }
  }

  /** The threshold message of one sample: a CPU line when the CPU share is
      strictly above its limit, then a memory line when memory is strictly
      above its limit. */
  function Breaches(cfg: Settings, s: Sample): (r: seq<Breach>)
    ensures CpuHigh(s.cpu) in r <==> s.cpu > cfg.cpuLimit
    ensures MemHigh(s.mem, s.usedMb, s.limitMb) in r <==> s.mem > cfg.memLimit
    ensures forall b <- r :: b == CpuHigh(s.cpu) || b == MemHigh(s.mem, s.usedMb, s.limitMb)
    ensures |r| <= 2 && (|r| == 2 ==> r[0].CpuHigh? && r[1].MemHigh?)
    ensures r != [] <==> s.cpu > cfg.cpuLimit || s.mem > cfg.memLimit
  {
    (if s.cpu > cfg.cpuLimit then [CpuHigh(s.cpu)] else [])
    + (if s.mem > cfg.memLimit then [MemHigh(s.mem, s.usedMb, s.limitMb)] else [])
  }

  /** A state together with the alerts produced on the way to it. */
  datatype Swept = Swept(state: AlertState, alerts: seq<Alert>)

  /** One iteration of the per-container loop body. */
  function Step(cfg: Settings, st: AlertState, name: string, now: real, sample: Option<Sample>): (r: Swept)
    ensures forall a <- r.alerts :: a.name == name
    ensures forall n :: n != name ==> ViewOf(r.state, n) == ViewOf(st, n)
    ensures IsDown(r.state, name) != IsDown(st, name) ==> (IsDown(r.state, name) <==> sample.None?)
    ensures (exists a <- r.alerts :: a.Gated()) ==> CooledDown(cfg, st, name, now) && LastAlert(r.state, name) == now
    ensures (forall a <- r.alerts :: !a.Gated()) ==> LastAlert(r.state, name) == LastAlert(st, name)
  {
    match sample
    case None =>
      if !IsDown(st, name) && CooledDown(cfg, st, name, now) then
        var alerts := [Down(name)];
        assert alerts[0].Gated();
        Swept(AlertState(st.down[name := true], st.lastAlert[name := now]), alerts)
      else
        Swept(st, [])
    case Some(s) =>
      var wasDown := IsDown(st, name);
      var st1 := if wasDown then st.(down := st.down[name := false]) else st;
      var recovery := if wasDown then [Recovered(name)] else [];
      var msg := Breaches(cfg, s);
      if msg != [] && CooledDown(cfg, st1, name, now) then
        var alerts := recovery + [Threshold(name, msg)];
        assert alerts[|alerts| - 1].Gated();
        Swept(st1.(lastAlert := st1.lastAlert[name := now]), alerts)
      else
        Swept(st1, recovery)
  }

  /** The loop over the configured containers, all evaluated at one `now`. */
  function Sweep(cfg: Settings, st: AlertState, names: seq<string>, now: real, samples: seq<Option<Sample>>): (r: Swept)
    requires |samples| == |names|
    ensures forall a <- r.alerts :: a.name in names
    ensures forall n :: n !in names ==> ViewOf(r.state, n) == ViewOf(st, n)
    decreases |names|
  {
    if |names| == 0 then Swept(st, [])
    else
      var k := |names| - 1;
      var prev := Sweep(cfg, st, names[..k], now, samples[..k]);
      var last := Step(cfg, prev.state, names[k], now, samples[k]);
      assert forall n :: n in names[..k] ==> n in names;
      Swept(last.state, prev.alerts + last.alerts)
  }

  /** What one tick did: the new state, the alerts in sending order, and the
      containers whose stats it read. */
  datatype TickResult = TickResult(state: AlertState, alerts: seq<Alert>, probed: seq<string>)

  /** One pass of `monitor_loop`: nothing at all when nobody is subscribed,
      otherwise one probe and one loop iteration per configured container. */
  function Tick<Id>(cfg: Settings, st: AlertState, subs: set<Id>, now: real, samples: seq<Option<Sample>>): (r: TickResult)
    requires |samples| == |cfg.containers|
    ensures subs == {} ==> r.state == st && r.alerts == [] && r.probed == []
    ensures subs != {} ==> r.probed == cfg.containers
    ensures forall a <- r.alerts :: a.name in cfg.containers
    ensures forall n :: n !in cfg.containers ==> ViewOf(r.state, n) == ViewOf(st, n)
  {
    if subs == {} then TickResult(st, [], [])
    else
      var swept := Sweep(cfg, st, cfg.containers, now, samples);
      TickResult(swept.state, swept.alerts, cfg.containers)
  }

  /** The alerts about one container, in order. */
  function AlertsFor(alerts: seq<Alert>, name: string): (r: seq<Alert>)
    ensures forall a <- r :: a.name == name && a in alerts
    decreases |alerts|
  {
    if |alerts| == 0 then []
    else (if alerts[0].name == name then [alerts[0]] else []) + AlertsFor(alerts[1..], name)
  }

  lemma {:induction false} AlertsForAppend(xs: seq<Alert>, ys: seq<Alert>, name: string)
    ensures AlertsFor(xs + ys, name) == AlertsFor(xs, name) + AlertsFor(ys, name)
    decreases |xs|
  {
    if |xs| == 0 {
      assert xs + ys == ys;
    } else {
      assert (xs + ys)[1..] == xs[1..] + ys;
      AlertsForAppend(xs[1..], ys, name);
    }
  }

  lemma {:induction false} AlertsForOnly(xs: seq<Alert>, name: string)
    ensures (forall a <- xs :: a.name == name) ==> AlertsFor(xs, name) == xs
    ensures (forall a <- xs :: a.name != name) ==> AlertsFor(xs, name) == []
    decreases |xs|
  {
    if |xs| > 0 {
      AlertsForOnly(xs[1..], name);
      assert xs == [xs[0]] + xs[1..];
    }
  }

  /** The step for a container depends on nothing but that container's own
      flag and timestamp. */
  lemma StepLocal(cfg: Settings, st1: AlertState, st2: AlertState, name: string, now: real, sample: Option<Sample>)
    requires ViewOf(st1, name) == ViewOf(st2, name)
    ensures Step(cfg, st1, name, now, sample).alerts == Step(cfg, st2, name, now, sample).alerts
    ensures ViewOf(Step(cfg, st1, name, now, sample).state, name) == ViewOf(Step(cfg, st2, name, now, sample).state, name)
  {
  }

  predicate Distinct(names: seq<string>) {
    forall i, j :: 0 <= i < j < |names| ==> names[i] != names[j]
  }

  /** Containers are evaluated independently: with distinct names, what a
      sweep does to one container and says about it is what that
      container's step alone does and says, whatever the other containers'
      probes returned. */
  lemma {:induction false} SweepIsolation(cfg: Settings, st: AlertState, names: seq<string>, now: real,
                                          samples: seq<Option<Sample>>, i: nat)
    requires |samples| == |names| && i < |names| && Distinct(names)
    ensures var r := Sweep(cfg, st, names, now, samples);
            var s := Step(cfg, st, names[i], now, samples[i]);
            && ViewOf(r.state, names[i]) == ViewOf(s.state, names[i])
            && AlertsFor(r.alerts, names[i]) == s.alerts
    decreases |names|
  {
    var k := |names| - 1;
    var n := names[i];
    var prev := Sweep(cfg, st, names[..k], now, samples[..k]);
    var last := Step(cfg, prev.state, names[k], now, samples[k]);
    assert Sweep(cfg, st, names, now, samples) == Swept(last.state, prev.alerts + last.alerts);
    AlertsForAppend(prev.alerts, last.alerts, n);
    if i == k {
      SweepIsolationLast(cfg, st, names, now, samples);
    } else {
      assert names[..k][i] == n && samples[..k][i] == samples[i];
      assert Distinct(names[..k]);
      SweepIsolation(cfg, st, names[..k], now, samples[..k], i);
      assert names[k] != n;
      AlertsForOnly(last.alerts, n);
    }
  }

  /** The last container of a sweep sees its own entry untouched by the
      containers before it. */
  lemma SweepIsolationLast(cfg: Settings, st: AlertState, names: seq<string>, now: real,
                           samples: seq<Option<Sample>>)
    requires |samples| == |names| && |names| > 0 && Distinct(names)
    ensures var k := |names| - 1;
            var prev := Sweep(cfg, st, names[..k], now, samples[..k]);
            var last := Step(cfg, prev.state, names[k], now, samples[k]);
            var s := Step(cfg, st, names[k], now, samples[k]);
            && ViewOf(last.state, names[k]) == ViewOf(s.state, names[k])
            && AlertsFor(prev.alerts, names[k]) == []
            && AlertsFor(last.alerts, names[k]) == s.alerts
  {
    var k := |names| - 1;
    var n := names[k];
    var prev := Sweep(cfg, st, names[..k], now, samples[..k]);
    var last := Step(cfg, prev.state, n, now, samples[k]);
    assert n !in names[..k] by {
      forall j | 0 <= j < k ensures names[..k][j] != n {
        assert names[..k][j] == names[j];
      }
    }
    assert ViewOf(prev.state, n) == ViewOf(st, n);
    assert forall a <- prev.alerts :: a.name != n;
    AlertsForOnly(prev.alerts, n);
    StepLocal(cfg, prev.state, st, n, now, samples[k]);
    AlertsForOnly(last.alerts, n);
  }

  /** `SweepIsolation` for a whole tick with subscribers. */
  lemma TickIsolation<Id>(cfg: Settings, st: AlertState, subs: set<Id>, now: real,
                          samples: seq<Option<Sample>>, i: nat)
    requires |samples| == |cfg.containers| && i < |cfg.containers| && Distinct(cfg.containers)
    requires subs != {}
    ensures var r := Tick(cfg, st, subs, now, samples);
            var s := Step(cfg, st, cfg.containers[i], now, samples[i]);
            && ViewOf(r.state, cfg.containers[i]) == ViewOf(s.state, cfg.containers[i])
            && AlertsFor(r.alerts, cfg.containers[i]) == s.alerts
  {
    SweepIsolation(cfg, st, cfg.containers, now, samples, i);
  }

  /** Down edge: a container that vanishes while not flagged down and out of
      cooldown gets exactly one "down" alert, is flagged down and has its
      timestamp set to `now`. */
  lemma DownEdge<Id>(cfg: Settings, st: AlertState, subs: set<Id>, now: real,
                     samples: seq<Option<Sample>>, i: nat)
    requires |samples| == |cfg.containers| && i < |cfg.containers| && Distinct(cfg.containers)
    requires subs != {} && samples[i].None?
    requires !IsDown(st, cfg.containers[i]) && CooledDown(cfg, st, cfg.containers[i], now)
    ensures var r := Tick(cfg, st, subs, now, samples);
            && AlertsFor(r.alerts, cfg.containers[i]) == [Down(cfg.containers[i])]
            && IsDown(r.state, cfg.containers[i])
            && LastAlert(r.state, cfg.containers[i]) == now
  {
    TickIsolation(cfg, st, subs, now, samples, i);
  }

  /** No repeated "down": while the container stays absent and is already
      flagged, or is still in cooldown, nothing is sent and its flag and
      timestamp stay as they were. */
  lemma DownHeld<Id>(cfg: Settings, st: AlertState, subs: set<Id>, now: real,
                     samples: seq<Option<Sample>>, i: nat)
    requires |samples| == |cfg.containers| && i < |cfg.containers| && Distinct(cfg.containers)
    requires samples[i].None?
    requires IsDown(st, cfg.containers[i]) || !CooledDown(cfg, st, cfg.containers[i], now)
    ensures var r := Tick(cfg, st, subs, now, samples);
            && AlertsFor(r.alerts, cfg.containers[i]) == []
            && ViewOf(r.state, cfg.containers[i]) == ViewOf(st, cfg.containers[i])
  {
    if subs != {} {
      TickIsolation(cfg, st, subs, now, samples, i);
    }
  }

  /** Recovery edge: a flagged container that answers again is reported
      first, whatever the cooldown, and loses its flag; the recovery itself
      leaves the timestamp alone, which moves only if a threshold alert
      follows in the same tick. */
  lemma RecoveryEdge<Id>(cfg: Settings, st: AlertState, subs: set<Id>, now: real,
                         samples: seq<Option<Sample>>, i: nat)
    requires |samples| == |cfg.containers| && i < |cfg.containers| && Distinct(cfg.containers)
    requires subs != {} && samples[i].Some? && IsDown(st, cfg.containers[i])
    ensures var r := Tick(cfg, st, subs, now, samples);
            var mine := AlertsFor(r.alerts, cfg.containers[i]);
            && |mine| >= 1 && mine[0] == Recovered(cfg.containers[i])
            && !IsDown(r.state, cfg.containers[i])
            && (|mine| == 1 ==> LastAlert(r.state, cfg.containers[i]) == LastAlert(st, cfg.containers[i]))
  {
    TickIsolation(cfg, st, subs, now, samples, i);
  }

  /** Threshold gate: a running container gets a threshold alert exactly
      when one of its limits is exceeded and its cooldown has elapsed, and
      its timestamp moves to `now` exactly then. */
  lemma ThresholdGate<Id>(cfg: Settings, st: AlertState, subs: set<Id>, now: real,
                          samples: seq<Option<Sample>>, i: nat)
    requires |samples| == |cfg.containers| && i < |cfg.containers| && Distinct(cfg.containers)
    requires subs != {} && samples[i].Some?
    ensures var name := cfg.containers[i];
            var r := Tick(cfg, st, subs, now, samples);
            var fires := Breaches(cfg, samples[i].value) != [] && CooledDown(cfg, st, name, now);
            && (Threshold(name, Breaches(cfg, samples[i].value)) in AlertsFor(r.alerts, name) <==> fires)
            && LastAlert(r.state, name) == (if fires then now else LastAlert(st, name))
  {
    TickIsolation(cfg, st, subs, now, samples, i);
  }

  /** The down alert and the threshold alert share one timestamp: a
      container that comes back over its limits less than a cooldown after
      its down alert gets the recovery notice and nothing else. */
  lemma SharedCooldown<Id>(cfg: Settings, st: AlertState, subs: set<Id>, t0: real, t1: real,
                           first: seq<Option<Sample>>, second: seq<Option<Sample>>, i: nat)
    requires |first| == |cfg.containers| && |second| == |cfg.containers|
    requires i < |cfg.containers| && Distinct(cfg.containers) && subs != {}
    requires first[i].None? && !IsDown(st, cfg.containers[i]) && CooledDown(cfg, st, cfg.containers[i], t0)
    requires second[i].Some? && t1 - t0 < cfg.cooldown as real
    ensures var r0 := Tick(cfg, st, subs, t0, first);
            var r1 := Tick(cfg, r0.state, subs, t1, second);
            AlertsFor(r1.alerts, cfg.containers[i]) == [Recovered(cfg.containers[i])]
  {
    var r0 := Tick(cfg, st, subs, t0, first);
    TickIsolation(cfg, st, subs, t0, first, i);
    TickIsolation(cfg, r0.state, subs, t1, second, i);
  }
}
