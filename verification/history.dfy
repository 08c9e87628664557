/** Many ticks in a row. Each poll brings its own clock reading, the
    subscriber set as the commands left it, and one probe result per
    container; the log stamps every alert with the tick that sent it. Over
    any such run the two promises of the alerting loop hold: "down" and
    "recovered" alternate per container, and the alerts that wait for the
    cooldown are never closer together than the cooldown. */
module History {
  import opened Optional
  import opened Config
  import opened Probe
  import opened Alerts

  datatype Poll<Id> = Poll(now: real, subs: set<Id>, samples: seq<Option<Sample>>)

  datatype Stamped = Stamped(at: real, alert: Alert)

  datatype Run = Run(state: AlertState, log: seq<Stamped>)

  predicate Aligned<Id>(cfg: Settings, polls: seq<Poll<Id>>) {
    forall k :: 0 <= k < |polls| ==> |polls[k].samples| == |cfg.containers|
  }

  function Stamp(alerts: seq<Alert>, at: real): (r: seq<Stamped>)
    ensures |r| == |alerts|
    decreases |alerts|
  {
    if |alerts| == 0 then [] else [Stamped(at, alerts[0])] + Stamp(alerts[1..], at)
  }

  lemma {:induction false} StampAppend(xs: seq<Alert>, ys: seq<Alert>, at: real)
    ensures Stamp(xs + ys, at) == Stamp(xs, at) + Stamp(ys, at)
    decreases |xs|
  {
    if |xs| == 0 {
      assert xs + ys == ys;
    } else {
      assert (xs + ys)[1..] == xs[1..] + ys;
      StampAppend(xs[1..], ys, at);
    }
  }

  lemma LogSplit(log: seq<Stamped>, xs: seq<Alert>, ys: seq<Alert>, at: real)
    ensures log + Stamp(xs + ys, at) == (log + Stamp(xs, at)) + Stamp(ys, at)
  {
    StampAppend(xs, ys, at);
  }

  /** Successive ticks from a starting state. */
  function Monitor<Id>(cfg: Settings, st: AlertState, polls: seq<Poll<Id>>): Run
    requires Aligned(cfg, polls)
    decreases |polls|
  {
    if |polls| == 0 then Run(st, [])
    else
      var k := |polls| - 1;
      var prev := Monitor(cfg, st, polls[..k]);
      var p := polls[k];
      var r := Tick(cfg, prev.state, p.subs, p.now, p.samples);
      Run(r.state, prev.log + Stamp(r.alerts, p.now))
  }

  /** The presence edge an alert reports for `name`: true for "down",
      false for "recovered". */
  function EdgeOf(a: Alert, name: string): seq<bool> {
    if a.Down? && a.name == name then [true]
    else if a.Recovered? && a.name == name then [false]
    else []
  }

  /** The presence edges reported for `name`, in order. */
  function Edges(log: seq<Stamped>, name: string): seq<bool>
    decreases |log|
  {
    if |log| == 0 then [] else EdgeOf(log[0].alert, name) + Edges(log[1..], name)
  }

  function GateOf(s: Stamped, name: string): seq<real> {
    if s.alert.Gated() && s.alert.name == name then [s.at] else []
  }

  /** When the cooldown-gated alerts for `name` were sent. */
  function GatedTimes(log: seq<Stamped>, name: string): seq<real>
    decreases |log|
  {
    if |log| == 0 then [] else GateOf(log[0], name) + GatedTimes(log[1..], name)
  }

  lemma {:induction false} EdgesAppend(xs: seq<Stamped>, ys: seq<Stamped>, name: string)
    ensures Edges(xs + ys, name) == Edges(xs, name) + Edges(ys, name)
    decreases |xs|
  {
    if |xs| == 0 {
      assert xs + ys == ys;
    } else {
      assert (xs + ys)[1..] == xs[1..] + ys;
      assert (xs + ys)[0] == xs[0];
      EdgesAppend(xs[1..], ys, name);
      var h := EdgeOf(xs[0].alert, name);
      assert Edges(xs + ys, name) == h + (Edges(xs[1..], name) + Edges(ys, name));
      assert h + (Edges(xs[1..], name) + Edges(ys, name)) == (h + Edges(xs[1..], name)) + Edges(ys, name);
    }
  }

  lemma {:induction false} GatedTimesAppend(xs: seq<Stamped>, ys: seq<Stamped>, name: string)
    ensures GatedTimes(xs + ys, name) == GatedTimes(xs, name) + GatedTimes(ys, name)
    decreases |xs|
  {
    if |xs| == 0 {
      assert xs + ys == ys;
    } else {
      assert (xs + ys)[1..] == xs[1..] + ys;
      assert (xs + ys)[0] == xs[0];
      GatedTimesAppend(xs[1..], ys, name);
      var h := GateOf(xs[0], name);
      assert GatedTimes(xs + ys, name) == h + (GatedTimes(xs[1..], name) + GatedTimes(ys, name));
      assert h + (GatedTimes(xs[1..], name) + GatedTimes(ys, name)) == (h + GatedTimes(xs[1..], name)) + GatedTimes(ys, name);
    }
  }

  predicate Alternating(e: seq<bool>) {
    forall k :: 0 <= k < |e| - 1 ==> e[k] != e[k + 1]
  }

  predicate Spaced(ts: seq<real>, gap: real) {
    forall i, j :: 0 <= i < j < |ts| ==> ts[j] - ts[i] >= gap
  }

  /** `Alternating`, stated one step at a time from the end. */
  predicate Alternates(e: seq<bool>)
    decreases |e|
  {
    |e| < 2 || (e[|e| - 2] != e[|e| - 1] && Alternates(e[..|e| - 1]))
  }

  /** Consecutive times at least `gap` apart, from the end. */
  predicate Paced(ts: seq<real>, gap: real)
    decreases |ts|
  {
    |ts| < 2 || (ts[|ts| - 1] - ts[|ts| - 2] >= gap && Paced(ts[..|ts| - 1], gap))
  }

  lemma {:induction false} AlternatesAll(e: seq<bool>)
    requires Alternates(e)
    ensures Alternating(e)
    decreases |e|
  {
    if |e| >= 2 {
      var p := e[..|e| - 1];
      AlternatesAll(p);
      forall k | 0 <= k < |e| - 1
        ensures e[k] != e[k + 1]
      {
        if k + 1 < |p| {
          assert e[k] == p[k] && e[k + 1] == p[k + 1];
        }
      }
    }
  }

  /** Consecutive spacing, stated by index. */
  lemma {:induction false} PacedConsecutive(ts: seq<real>, gap: real)
    requires Paced(ts, gap)
    ensures forall i :: 0 < i < |ts| ==> ts[i] - ts[i - 1] >= gap
    decreases |ts|
  {
    if |ts| >= 2 {
      var m := |ts| - 1;
      var p := ts[..m];
      PacedConsecutive(p, gap);
      assert forall i :: 0 <= i < m ==> ts[i] == p[i];
    }
  }

  /** With a non-negative gap, consecutive spacing gives spacing of every
      pair, and no time precedes the first. */
  lemma {:induction false} PacedAll(ts: seq<real>, gap: real)
    requires gap >= 0.0 && Paced(ts, gap)
    ensures Spaced(ts, gap)
    ensures forall i :: 0 <= i < |ts| ==> ts[i] >= ts[0]
    decreases |ts|
  {
    if |ts| >= 2 {
      var m := |ts| - 1;
      var p := ts[..m];
      PacedAll(p, gap);
      assert forall i :: 0 <= i < m ==> ts[i] == p[i];
      forall i, j | 0 <= i < j < |ts|
        ensures ts[j] - ts[i] >= gap
      {
        if j < m {
          assert ts[j] - ts[i] == p[j] - p[i];
        } else if i < m - 1 {
          assert ts[m - 1] - ts[i] == p[m - 1] - p[i] >= gap;
        }
      }
    }
  }

  lemma StampSmall(alerts: seq<Alert>, now: real, n: string)
    requires |alerts| <= 2
    ensures |alerts| == 0 ==> Edges(Stamp(alerts, now), n) == [] && GatedTimes(Stamp(alerts, now), n) == []
    ensures |alerts| == 1 ==>
              && Edges(Stamp(alerts, now), n) == EdgeOf(alerts[0], n)
              && GatedTimes(Stamp(alerts, now), n) == GateOf(Stamped(now, alerts[0]), n)
    ensures |alerts| == 2 ==>
              && Edges(Stamp(alerts, now), n) == EdgeOf(alerts[0], n) + EdgeOf(alerts[1], n)
              && GatedTimes(Stamp(alerts, now), n) == GateOf(Stamped(now, alerts[0]), n) + GateOf(Stamped(now, alerts[1]), n)
  {
    var log := Stamp(alerts, now);
    if |alerts| == 2 {
      assert log[1..] == Stamp(alerts[1..], now);
      assert log[1..][1..] == [];
    } else if |alerts| == 1 {
      assert log[1..] == [];
    }
  }

  /** What one step adds to the log about `n`: an edge exactly when the
      down flag flipped, and a gated time exactly when a gated alert went
      out. */
  lemma StepShape(cfg: Settings, st: AlertState, name: string, now: real, sample: Option<Sample>, n: string)
    ensures var r := Step(cfg, st, name, now, sample);
            && Edges(Stamp(r.alerts, now), n)
               == (if n == name && IsDown(r.state, n) != IsDown(st, n) then [IsDown(r.state, n)] else [])
            && GatedTimes(Stamp(r.alerts, now), n)
               == (if n == name && exists a <- r.alerts :: a.Gated() then [now] else [])
  {
    var r := Step(cfg, st, name, now, sample);
    if n != name {
      OtherNames(r.alerts, now, n);
    } else {
      StampSmall(r.alerts, now, n);
      StepShapeOwn(cfg, st, name, now, sample);
    }
  }

  /** Alerts about other containers add nothing to `n`'s edges or gated
      times. */
  lemma {:induction false} OtherNames(alerts: seq<Alert>, now: real, n: string)
    requires forall a <- alerts :: a.name != n
    ensures Edges(Stamp(alerts, now), n) == [] && GatedTimes(Stamp(alerts, now), n) == []
    decreases |alerts|
  {
    if |alerts| > 0 {
      assert alerts[0] in alerts;
      assert forall a <- alerts[1..] :: a in alerts;
      OtherNames(alerts[1..], now, n);
      var log := Stamp(alerts, now);
      assert log[0] == Stamped(now, alerts[0]) && log[1..] == Stamp(alerts[1..], now);
    }
  }

  /** The shape of one step's alerts about its own container: at most two;
      none leaves the flag and the timestamp alone; one carries the edge and
      the gated time the step produced; two are a recovery followed by a
      threshold alert. */
  predicate OwnShape(st: AlertState, r: Swept, name: string, now: real) {
    var fired := exists a <- r.alerts :: a.Gated();
    && |r.alerts| <= 2
    && (|r.alerts| == 0 ==> IsDown(r.state, name) == IsDown(st, name) && !fired)
    && (|r.alerts| == 1 ==>
          && EdgeOf(r.alerts[0], name) == (if IsDown(r.state, name) != IsDown(st, name) then [IsDown(r.state, name)] else [])
          && GateOf(Stamped(now, r.alerts[0]), name) == (if fired then [now] else []))
    && (|r.alerts| == 2 ==>
          && EdgeOf(r.alerts[0], name) + EdgeOf(r.alerts[1], name) == [IsDown(r.state, name)]
          && IsDown(st, name) && fired
          && GateOf(Stamped(now, r.alerts[0]), name) + GateOf(Stamped(now, r.alerts[1]), name) == [now])
  }

  lemma StepShapeOwn(cfg: Settings, st: AlertState, name: string, now: real, sample: Option<Sample>)
    ensures OwnShape(st, Step(cfg, st, name, now, sample), name, now)
  {
    match sample
    case None =>
    case Some(s) =>
      if IsDown(st, name) {
        StepShapeRecovering(cfg, st, name, now, s);
      } else {
        StepShapeUp(cfg, st, name, now, s);
      }
  }

  /** A sample for a container that was down: a recovery, perhaps followed
      by a threshold alert. */
  lemma StepShapeRecovering(cfg: Settings, st: AlertState, name: string, now: real, s: Sample)
    requires IsDown(st, name)
    ensures OwnShape(st, Step(cfg, st, name, now, Some(s)), name, now)
  {
    var r := Step(cfg, st, name, now, Some(s));
    assert r.alerts[0] == Recovered(name);
    assert !IsDown(r.state, name);
    if |r.alerts| == 2 {
      assert r.alerts[1].Threshold? && r.alerts[1] in r.alerts;
      assert [false] + [] == [false];
    } else {
      assert !r.alerts[0].Gated();
    }
  }

  /** A sample for a container that was up: at most a threshold alert. */
  lemma StepShapeUp(cfg: Settings, st: AlertState, name: string, now: real, s: Sample)
    requires !IsDown(st, name)
    ensures OwnShape(st, Step(cfg, st, name, now, Some(s)), name, now)
  {
    var r := Step(cfg, st, name, now, Some(s));
    assert forall a <- r.alerts :: a.Threshold?;
    assert !IsDown(r.state, name);
  }

  /** The edge half of the run invariant, from `st0` to `st` with `log`:
      the edges alternate, the first leaves the initial flag, the last is
      the current flag. */
  predicate EdgeTrack(st0: AlertState, st: AlertState, log: seq<Stamped>, n: string) {
    var e := Edges(log, n);
    && Alternates(e)
    && (|e| == 0 ==> IsDown(st, n) == IsDown(st0, n))
    && (|e| > 0 ==> e[0] == !IsDown(st0, n) && e[|e| - 1] == IsDown(st, n))
  }

  /** The cooldown half: gated times are paced by the cooldown, the first
      is a cooldown after the initial timestamp, the last is the current
      timestamp. */
  predicate GapTrack(cfg: Settings, st0: AlertState, st: AlertState, log: seq<Stamped>, n: string) {
    var g := GatedTimes(log, n);
    && Paced(g, cfg.cooldown as real)
    && (|g| == 0 ==> LastAlert(st, n) == LastAlert(st0, n))
    && (|g| > 0 ==> g[0] - LastAlert(st0, n) >= cfg.cooldown as real && g[|g| - 1] == LastAlert(st, n))
  }

  predicate Track(cfg: Settings, st0: AlertState, st: AlertState, log: seq<Stamped>, n: string) {
    EdgeTrack(st0, st, log, n) && GapTrack(cfg, st0, st, log, n)
  }

  lemma EdgeTrackStep(st0: AlertState, st: AlertState, st': AlertState, log: seq<Stamped>, more: seq<Stamped>, n: string)
    requires EdgeTrack(st0, st, log, n)
    requires Edges(more, n) == (if IsDown(st', n) != IsDown(st, n) then [IsDown(st', n)] else [])
    ensures EdgeTrack(st0, st', log + more, n)
  {
    EdgesAppend(log, more, n);
    var e := Edges(log, n);
    if IsDown(st', n) != IsDown(st, n) {
      var e' := e + [IsDown(st', n)];
      assert e'[..|e|] == e;
      assert e'[|e'| - 1] == IsDown(st', n);
      if |e| > 0 {
        assert e'[0] == e[0] && e'[|e'| - 2] == IsDown(st, n);
        assert Alternates(e');
      }
    } else {
      assert e + [] == e;
    }
  }

  lemma GapTrackStep(cfg: Settings, st0: AlertState, st: AlertState, st': AlertState,
                     log: seq<Stamped>, more: seq<Stamped>, n: string, now: real, fired: bool)
    requires GapTrack(cfg, st0, st, log, n)
    requires GatedTimes(more, n) == (if fired then [now] else [])
    requires fired ==> now - LastAlert(st, n) >= cfg.cooldown as real && LastAlert(st', n) == now
    requires !fired ==> LastAlert(st', n) == LastAlert(st, n)
    ensures GapTrack(cfg, st0, st', log + more, n)
  {
    GatedTimesAppend(log, more, n);
    var g := GatedTimes(log, n);
    if fired {
      var g' := g + [now];
      assert g'[..|g|] == g;
      if |g| > 0 {
        assert g'[0] == g[0];
      }
    } else {
      assert g + [] == g;
    }
  }

  /** What one step adds to the edges and gated times of container `n`,
      and how it moves that container's timestamp. */
  lemma StepGate(cfg: Settings, st: AlertState, name: string, now: real, sample: Option<Sample>, n: string)
    ensures var r := Step(cfg, st, name, now, sample);
            var more := Stamp(r.alerts, now);
            var fired := GatedTimes(more, n) != [];
            && Edges(more, n) == (if IsDown(r.state, n) != IsDown(st, n) then [IsDown(r.state, n)] else [])
            && GatedTimes(more, n) == (if fired then [now] else [])
            && (fired ==> now - LastAlert(st, n) >= cfg.cooldown as real && LastAlert(r.state, n) == now)
            && (!fired ==> LastAlert(r.state, n) == LastAlert(st, n))
  {
    var r := Step(cfg, st, name, now, sample);
    StepShape(cfg, st, name, now, sample, n);
    if n != name {
      assert ViewOf(r.state, n) == ViewOf(st, n);
    } else if !exists a <- r.alerts :: a.Gated() {
      assert forall a <- r.alerts :: !a.Gated();
    }
  }

  /** Appending `more` keeps the run invariant when its edges and gated
      times are those a step from `st` to `st'` makes. */
  lemma TrackExtend(cfg: Settings, st0: AlertState, st: AlertState, st': AlertState,
                    log: seq<Stamped>, more: seq<Stamped>, n: string, now: real, fired: bool)
    requires Track(cfg, st0, st, log, n)
    requires Edges(more, n) == (if IsDown(st', n) != IsDown(st, n) then [IsDown(st', n)] else [])
    requires GatedTimes(more, n) == (if fired then [now] else [])
    requires fired ==> now - LastAlert(st, n) >= cfg.cooldown as real && LastAlert(st', n) == now
    requires !fired ==> LastAlert(st', n) == LastAlert(st, n)
    ensures Track(cfg, st0, st', log + more, n)
  {
    EdgeTrackStep(st0, st, st', log, more, n);
    GapTrackStep(cfg, st0, st, st', log, more, n, now, fired);
  }

  lemma TrackStep(cfg: Settings, st0: AlertState, st: AlertState, log: seq<Stamped>,
                  name: string, now: real, sample: Option<Sample>, n: string)
    requires Track(cfg, st0, st, log, n)
    ensures var r := Step(cfg, st, name, now, sample);
            Track(cfg, st0, r.state, log + Stamp(r.alerts, now), n)
  {
    var r := Step(cfg, st, name, now, sample);
    var more := Stamp(r.alerts, now);
    StepGate(cfg, st, name, now, sample, n);
    TrackExtend(cfg, st0, st, r.state, log, more, n, now, GatedTimes(more, n) != []);
  }

  lemma {:induction false} TrackSweep(cfg: Settings, st0: AlertState, st: AlertState, log: seq<Stamped>,
                                      names: seq<string>, now: real, samples: seq<Option<Sample>>, n: string)
    requires |samples| == |names|
    requires Track(cfg, st0, st, log, n)
    ensures var r := Sweep(cfg, st, names, now, samples);
            Track(cfg, st0, r.state, log + Stamp(r.alerts, now), n)
    decreases |names|
  {
    var r := Sweep(cfg, st, names, now, samples);
    if |names| == 0 {
      assert r.state == st && r.alerts == [];
      assert log + Stamp(r.alerts, now) == log;
    } else {
      var k := |names| - 1;
      var prev := Sweep(cfg, st, names[..k], now, samples[..k]);
      var last := Step(cfg, prev.state, names[k], now, samples[k]);
      assert r.state == last.state && r.alerts == prev.alerts + last.alerts;
      var sp := Stamp(prev.alerts, now);
      var sl := Stamp(last.alerts, now);
      TrackSweep(cfg, st0, st, log, names[..k], now, samples[..k], n);
      TrackStep(cfg, st0, prev.state, log + sp, names[k], now, samples[k], n);
      LogSplit(log, prev.alerts, last.alerts, now);
    }
  }

  lemma {:induction false} TrackMonitor<Id>(cfg: Settings, st: AlertState, polls: seq<Poll<Id>>, n: string)
    requires Aligned(cfg, polls)
    ensures var h := Monitor(cfg, st, polls);
            Track(cfg, st, h.state, h.log, n)
    decreases |polls|
  {
    if |polls| > 0 {
      var k := |polls| - 1;
      assert Aligned(cfg, polls[..k]);
      var prev := Monitor(cfg, st, polls[..k]);
      var p := polls[k];
      TrackMonitor(cfg, st, polls[..k], n);
      if p.subs != {} {
        TrackSweep(cfg, st, prev.state, prev.log, cfg.containers, p.now, p.samples, n);
      } else {
        assert prev.log + Stamp([], p.now) == prev.log;
      }
    }
  }

  /** No alert storm, over any run of ticks and any subscriber history:
      per container, "down" and "recovered" strictly alternate, starting
      with whichever the initial flag allows; each down-or-threshold alert
      comes at least a cooldown after the one before it, and the first at
      least a cooldown after the timestamp the run started with. When the
      cooldown is not negative, the spacing holds between any two of them. */
  lemma NoAlertStorm<Id>(cfg: Settings, st: AlertState, polls: seq<Poll<Id>>, n: string)
    requires Aligned(cfg, polls)
    ensures var h := Monitor(cfg, st, polls);
            var e := Edges(h.log, n);
            var g := GatedTimes(h.log, n);
            && Alternating(e)
            && (|e| > 0 ==> e[0] == !IsDown(st, n))
            && (forall i :: 0 < i < |g| ==> g[i] - g[i - 1] >= cfg.cooldown as real)
            && (|g| > 0 ==> g[0] - LastAlert(st, n) >= cfg.cooldown as real)
            && (cfg.cooldown >= 0 ==> Spaced(g, cfg.cooldown as real))
            && (cfg.cooldown >= 0 ==> forall i :: 0 <= i < |g| ==> g[i] - LastAlert(st, n) >= cfg.cooldown as real)
  {
    TrackMonitor(cfg, st, polls, n);
    var h := Monitor(cfg, st, polls);
    var g := GatedTimes(h.log, n);
    AlternatesAll(Edges(h.log, n));
    PacedConsecutive(g, cfg.cooldown as real);
    if cfg.cooldown >= 0 {
      PacedAll(g, cfg.cooldown as real);
    }
  }

  /** From process start, when both maps are empty: the first edge of a
      container is a "down" alert, and the first gated alert is not sent
      before the clock reads `COOLDOWN`, because a missing timestamp reads
      as 0; with a non-negative cooldown no gated alert is. */
  lemma NoAlertStormFromStart<Id>(cfg: Settings, polls: seq<Poll<Id>>, n: string)
    requires Aligned(cfg, polls)
    ensures var h := Monitor(cfg, Initial(), polls);
            var e := Edges(h.log, n);
            var g := GatedTimes(h.log, n);
            && (|e| > 0 ==> e[0])
            && (|g| > 0 ==> g[0] >= cfg.cooldown as real)
            && (cfg.cooldown >= 0 ==> forall i :: 0 <= i < |g| ==> g[i] >= cfg.cooldown as real)
  {
    NoAlertStorm(cfg, Initial(), polls, n);
    assert LastAlert(Initial(), n) == 0.0 && !IsDown(Initial(), n);
  }
}
