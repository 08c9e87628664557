/** The `status` reply: `format_status_plain` and `format_status_markdown`
    (src/monitor.py:57-79) over one probe result per configured container.
    How a present sample's numbers are printed is the `show` parameter. */
module Status {
  import opened Optional
  import opened Text
  import opened Probe

  datatype Style = Plain | Markdown

  /** The suffix of a container that yielded no sample. */
  const Stopped: string := " — parado ou nao encontrado"

  /** The container name as printed: bare, or bold in Markdown. */
  function Label(style: Style, name: string): string {
    match style
    case Plain => name
    case Markdown => "*" + name + "*"
  }

  /** One entry of the status text. */
  function Entry(style: Style, name: string, sample: Option<Sample>, show: Sample -> string): string {
    match sample
    case None => Label(style, name) + Stopped
    case Some(s) => Label(style, name) + "\n   " + show(s)
  }

  /** The `lines` list: one entry per configured container, in order. */
  function Entries(style: Style, names: seq<string>, samples: seq<Option<Sample>>, show: Sample -> string): seq<string>
    requires |samples| == |names|
  {
    seq(|names|, i requires 0 <= i < |names| => Entry(style, names[i], samples[i], show))
  }

  /** `"\n\n".join(lines)` */
  function FormatStatus(style: Style, names: seq<string>, samples: seq<Option<Sample>>, show: Sample -> string): string
    requires |samples| == |names|
  {
    Join(Entries(style, names, samples, show), "\n\n")
  }

  /** A single container's status is its entry alone; each further container
      adds one blank-line separator and its own entry at the end. */
  lemma FormatStatusSnoc(style: Style, names: seq<string>, samples: seq<Option<Sample>>,
                         name: string, sample: Option<Sample>, show: Sample -> string)
    requires |samples| == |names|
    ensures |names| == 0 ==> FormatStatus(style, [name], [sample], show) == Entry(style, name, sample, show)
    ensures |names| > 0 ==>
              FormatStatus(style, names + [name], samples + [sample], show)
              == FormatStatus(style, names, samples, show) + "\n\n" + Entry(style, name, sample, show)
  {
    var e := Entries(style, names + [name], samples + [sample], show);
    assert e == Entries(style, names, samples, show) + [Entry(style, name, sample, show)];
    if |names| > 0 {
      JoinSnoc(Entries(style, names, samples, show), Entry(style, name, sample, show), "\n\n");
    }
  }

  /** A stopped or unreadable container is reported by name with the
      stopped suffix. */
  lemma AbsentEntry(style: Style, name: string, show: Sample -> string)
    ensures Entry(style, name, None, show) == Label(style, name) + Stopped
    ensures Entry(Plain, name, None, show)[..|name|] == name
  {
  }

  /** The Markdown entry is the plain entry with the name wrapped in `*`. */
  lemma MarkdownWrapsName(name: string, sample: Option<Sample>, show: Sample -> string)
    ensures Entry(Markdown, name, sample, show)
            == "*" + name + "*" + Entry(Plain, name, sample, show)[|name|..]
  {
    var p := Entry(Plain, name, sample, show);
    assert p == name + p[|name|..];
  }
}
