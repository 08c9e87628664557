/** Process-wide configuration (src/config.py): the monitored containers,
    the CPU and memory limits, the poll interval, the alert cooldown and the
    WhatsApp allow-list. Reading the environment and `float()`/`int()`
    parsing are outside the model: the raw variable is an `Option<string>`
    and the numeric settings are given directly. */
module Config {
  import opened Optional
  import opened Text

  datatype Settings = Settings(
    containers: seq<string>,
    cpuLimit: real,
    memLimit: real,
    interval: int,
    cooldown: int)

  /** The defaults the source uses when a variable is unset. */
  function Defaults(): Settings {
    Settings(["portal"], 50.0, 70.0, 30, 300)
  }

  /** The settings as the module reads them at import: every variable that
      is unset takes its default. The numbers arrive already converted. */
  function Load(containers: Option<string>, cpu: Option<real>, mem: Option<real>,
                interval: Option<int>, cooldown: Option<int>): (r: Settings)
    ensures r.containers == ParseContainers(containers)
    ensures r.cpuLimit == (if cpu.Some? then cpu.value else Defaults().cpuLimit)
    ensures r.memLimit == (if mem.Some? then mem.value else Defaults().memLimit)
    ensures r.interval == (if interval.Some? then interval.value else Defaults().interval)
    ensures r.cooldown == (if cooldown.Some? then cooldown.value else Defaults().cooldown)
    ensures containers.None? && cpu.None? && mem.None? && interval.None? && cooldown.None? ==> r == Defaults()
  {
    var d := Defaults();
    Settings(ParseContainers(containers), cpu.Or(d.cpuLimit), mem.Or(d.memLimit),
             interval.Or(d.interval), cooldown.Or(d.cooldown))
  }

  /** `os.environ.get("CONTAINERS", "portal").split(",")`: a plain split,
      with no stripping and no dropping of empty names. */
  function ParseContainers(raw: Option<string>): (r: seq<string>)
    ensures raw.None? ==> r == ["portal"]
    ensures |r| == Count(raw.Or("portal"), ',') + 1
    ensures forall i :: 0 <= i < |r| ==> ',' !in r[i]
    ensures Join(r, ",") == raw.Or("portal")
  {
    var s := raw.Or("portal");
    SplitJoin(s, ',');
    if raw.None? then
      SplitNoSeparator("portal", ',');
      Split(s, ',')
    else
      Split(s, ',')
  }

  /** Any non-empty list of names without commas can be configured: joined
      with commas, it parses back to itself. */
  lemma ContainersRoundTrip(names: seq<string>)
    requires |names| > 0 && forall i :: 0 <= i < |names| ==> ',' !in names[i]
    ensures ParseContainers(Some(Join(names, ","))) == names
  {
    JoinSplit(names, ',');
  }

  /** The fields of a comma-separated list, stripped, with empty ones
      dropped (the comprehension in src/config.py). */
  function KeepStripped(fields: seq<string>): (r: seq<string>)
    ensures |r| <= |fields|
    ensures forall x <- r :: x != "" && Strip(x) == x
    decreases |fields|
  {
    if |fields| == 0 then []
    else
      var f := Strip(fields[0]);
      StripIdempotent(fields[0]);
      (if f != "" then [f] else []) + KeepStripped(fields[1..])
  }

  /** Every field, stripped. */
  function StripAll(fields: seq<string>): (r: seq<string>)
    ensures |r| == |fields|
    ensures forall i :: 0 <= i < |fields| ==> r[i] == Strip(fields[i])
  {
    seq(|fields|, i requires 0 <= i < |fields| => Strip(fields[i]))
  }

  /** The kept entries are exactly the non-blank stripped fields. */
  lemma {:induction false} KeepStrippedMembership(fields: seq<string>, x: string)
    ensures x in KeepStripped(fields) <==> x != "" && x in StripAll(fields)
    decreases |fields|
  {
    if |fields| > 0 {
      KeepStrippedMembership(fields[1..], x);
      assert StripAll(fields) == [Strip(fields[0])] + StripAll(fields[1..]);
    }
  }

  /** `WHATSAPP_ALLOWED_NUMBERS`: split on commas, strip, drop empties. An
      unset variable reads as the empty string. */
  function ParseAllowList(raw: Option<string>): (r: seq<string>)
    ensures raw.None? || raw == Some("") ==> r == []
    ensures forall x <- r :: x != "" && Strip(x) == x
  {
    var fields := Split(raw.Or(""), ',');
    if raw.None? || raw == Some("") then
      assert fields == [""];
      assert Strip("") == "";
      assert fields[1..] == [];
      KeepStripped(fields)
    else
      KeepStripped(fields)
  }

  /** Dropping empty fields commutes with concatenation. */
  lemma {:induction false} KeepStrippedAppend(xs: seq<string>, ys: seq<string>)
    ensures KeepStripped(xs + ys) == KeepStripped(xs) + KeepStripped(ys)
    decreases |xs|
  {
    if |xs| == 0 {
      assert xs + ys == ys;
    } else {
      assert (xs + ys)[1..] == xs[1..] + ys;
      assert (xs + ys)[0] == xs[0];
      KeepStrippedAppend(xs[1..], ys);
    }
  }

  /** The entries keep the order of the fields they come from: the list
      parsed from `a,b` is the list from `a` followed by the list from `b`. */
  lemma AllowListKeepsOrder(a: string, b: string)
    ensures ParseAllowList(Some(a + "," + b)) == ParseAllowList(Some(a)) + ParseAllowList(Some(b))
  {
    assert a + "," + b == a + [','] + b;
    SplitAppend(a, b, ',');
    KeepStrippedAppend(Split(a, ','), Split(b, ','));
  }

  /** A single field yields its stripped text, or nothing when it is blank. */
  lemma AllowListSingleField(a: string)
    requires ',' !in a
    ensures ParseAllowList(Some(a)) == if AllSpace(a) then [] else [Strip(a)]
  {
    SplitNoSeparator(a, ',');
    assert Split(a, ',')[1..] == [];
  }

  /** Membership in the parsed allow-list, both directions: exactly the
      non-blank fields, stripped. */
  lemma AllowListMembership(s: string, x: string)
    ensures x in ParseAllowList(Some(s)) <==> x != "" && x in StripAll(Split(s, ','))
  {
    KeepStrippedMembership(Split(s, ','), x);
  }
}
