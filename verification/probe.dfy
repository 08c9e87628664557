/** The decision skeleton of `get_stats` (src/monitor.py:26-54), with the
    container runtime abstracted: the lookup result and the raw counters are
    inputs, and `round(x, 2)` is a parameter. */
module Probe {
  import opened Optional

  /** What the stats payload holds under `cpu_stats.cpu_usage.percpu_usage`. */
  datatype PerCpu =
    | Missing            // key absent: `.get(..., [1])` supplies a one-element list
    | Listed(count: nat) // a list of `count` per-CPU counters
    | Unsized            // a value without `len()`, such as null: `len` raises

  /** The counters `get_stats` reads from one stats payload. */
  datatype Counters = Counters(
    cpuTotal: int, preCpuTotal: int,
    systemCpu: int, preSystemCpu: int,
    perCpu: PerCpu,
    memUsage: nat, memLimit: nat)

  /** Reading the stats payload either raises (runtime error, timeout, a
      missing key) or yields the counters. */
  datatype StatsRead = Unreadable | Read(counters: Counters)

  /** `client.containers.get(name)`: raises when there is no such container;
      otherwise the container's status string and what its stats read gives. */
  datatype Lookup = NotFound | Found(status: string, stats: StatsRead)

  /** One probe result for a running container: the rounded CPU and memory
      percentages and the memory figures in whole MiB. */
  datatype Sample = Sample(cpu: real, mem: real, usedMb: nat, limitMb: nat)

  /** `len(percpu_usage)`, or None when `len` raises. */
  function CpuCount(p: PerCpu): Option<nat> {
    match p
    case Missing => Some(1)
    case Listed(k) => Some(k)
    case Unsized => None
  }

  /** The CPU share: guarded to 0 when the host counter did not advance. */
  function CpuPercent(c: Counters, count: nat): (r: real)
    ensures c.systemCpu - c.preSystemCpu <= 0 ==> r == 0.0
    ensures c.systemCpu - c.preSystemCpu > 0 ==>
              r * (c.systemCpu - c.preSystemCpu) as real
              == (c.cpuTotal - c.preCpuTotal) as real * count as real * 100.0
  {
    var systemDelta := c.systemCpu - c.preSystemCpu;
    if systemDelta > 0 then
      ((c.cpuTotal - c.preCpuTotal) as real / systemDelta as real) * count as real * 100.0
    else 0.0
  }

  /** Memory usage as a percentage of the limit (the limit must be non-zero). */
  function MemPercent(c: Counters): (r: real)
    requires c.memLimit > 0
    ensures r * c.memLimit as real == c.memUsage as real * 100.0
  {
    (c.memUsage as real / c.memLimit as real) * 100.0
  }

  /** `x // 1024 // 1024` */
  function Mebibytes(bytes: nat): (r: nat)
    ensures r * 1048576 <= bytes < (r + 1) * 1048576
  {
    bytes / 1024 / 1024
  }

  /** Every way the read can raise, folded into one flag. */
  predicate Readable(l: Lookup) {
    && l.Found? && l.status == "running" && l.stats.Read?
    && CpuCount(l.stats.counters.perCpu).Some?
    && l.stats.counters.memLimit > 0
  }

  /** `get_stats(name)`: a sample exactly when the container is running and
      its payload can be read, and None in every other case, so a stopped
      container and a failed read look the same to the caller. */
  function GetStats(l: Lookup, round2: real -> real): (r: Option<Sample>)
    ensures r.Some? <==> Readable(l)
    ensures r.Some? ==>
              && r.value.cpu == round2(CpuPercent(l.stats.counters, CpuCount(l.stats.counters.perCpu).value))
              && r.value.mem == round2(MemPercent(l.stats.counters))
              && r.value.usedMb == Mebibytes(l.stats.counters.memUsage)
              && r.value.limitMb == Mebibytes(l.stats.counters.memLimit)
  {
    match l
    case NotFound => None
    case Found(status, stats) =>
      if status != "running" then None
      else match stats
        case Unreadable => None
        case Read(c) =>
          match CpuCount(c.perCpu)
          case None => None
          case Some(count) =>
            if c.memLimit == 0 then None
            else Some(Sample(
              round2(CpuPercent(c, count)),
              round2(MemPercent(c)),
              Mebibytes(c.memUsage),
              Mebibytes(c.memLimit)))
  }

  /** A container that is not running yields no sample, whatever its
      counters say. */
  lemma NotRunningIsAbsent(status: string, stats: StatsRead, round2: real -> real)
    requires status != "running"
    ensures GetStats(Found(status, stats), round2) == None
  {
  }

  /** With no per-CPU list the CPU count is one, so the share is the plain
      ratio of the two deltas. */
  lemma MissingPerCpuCountsOne(c: Counters, round2: real -> real)
    requires c.perCpu.Missing? && c.memLimit > 0
    requires c.systemCpu - c.preSystemCpu > 0
    ensures var r := GetStats(Found("running", Read(c)), round2);
            && r.Some?
            && r.value.cpu == round2((c.cpuTotal - c.preCpuTotal) as real / (c.systemCpu - c.preSystemCpu) as real * 100.0)
  {
  }
}
