/** The WhatsApp bot (src/whatsapp.py and the `messages.upsert` branch of
    `handle_webhook` in src/main.py): who may talk to it, how an inbound
    message is reduced to a command, what each command does to the set of
    subscribed numbers, and how an alert reaches them. */
module WhatsApp {
  import opened Optional
  import opened Text
  import opened Alerts
  import opened Registry
  import opened Sink
  import opened Probe
  import Status

  /** The number with every `+` and every space removed. */
  function Unformatted(s: string): (r: string)
    ensures '+' !in r && ' ' !in r
    ensures forall x :: x in r <==> x in s && x != '+' && x != ' '
  {
    RemoveAll(RemoveAll(s, '+'), ' ')
  }

  lemma UnformattedAppend(a: string, b: string)
    ensures Unformatted(a + b) == Unformatted(a) + Unformatted(b)
  {
    RemoveAllAppend(a, b, '+');
    RemoveAllAppend(RemoveAll(a, '+'), RemoveAll(b, '+'), ' ');
  }

  /** The normalisation of `is_allowed`: drop `+` and spaces, then keep what
      comes before the first `@`. */
  function Clean(number: string): (r: string)
    ensures '+' !in r && ' ' !in r && '@' !in r
  {
    var u := Unformatted(number);
    var r := Split(u, '@')[0];
    SplitHeadPrefix(u, '@');
    assert forall x :: x in r ==> x in u;
    r
  }

  /** `+` and spaces anywhere in the number do not matter. */
  lemma IgnoresPlusAndSpace(a: string, c: char, b: string)
    requires c == '+' || c == ' '
    ensures Clean(a + [c] + b) == Clean(a + b)
  {
    UnformattedAppend(a + [c], b);
    UnformattedAppend(a, [c]);
    UnformattedAppend(a, b);
    assert [c][1..] == [];
    if c == '+' {
      assert RemoveAll([c], '+') == [];
      assert RemoveAll([], ' ') == [];
    } else {
      assert RemoveAll([c], '+') == [c];
      assert RemoveAll([c], ' ') == [];
    }
    assert Unformatted([c]) == [];
    assert Unformatted(a + [c]) == Unformatted(a);
    assert Unformatted(a + [c] + b) == Unformatted(a + b);
  }

  /** Everything from the first `@` on (the `@s.whatsapp.net` suffix of a
      JID) is cut off. */
  lemma CutsAtFirstAt(a: string, b: string)
    requires '@' !in a
    ensures Clean(a + ['@'] + b) == Clean(a)
  {
    UnformattedAppend(a + ['@'], b);
    UnformattedAppend(a, ['@']);
    assert Unformatted(['@']) == ['@'];
    SplitHead(Unformatted(a), Unformatted(b), '@');
    SplitNoSeparator(Unformatted(a), '@');
  }

  /** A bare number is its own normal form. */
  lemma KeepsPlainNumber(s: string)
    requires '+' !in s && ' ' !in s && '@' !in s
    ensures Clean(s) == s
  {
    RemoveAllAbsent(s, '+');
    RemoveAllAbsent(s, ' ');
    SplitNoSeparator(s, '@');
  }

  /** `is_allowed`: the cleaned number is on the allow list. */
  predicate IsAllowed(number: string, allowed: seq<string>) {
    Clean(number) in allowed
  }

  /** An allow-list entry that holds a `+`, a space or an `@` admits nobody,
      and a number that cleans to nothing is never admitted from a parsed
      allow list. */
  lemma AdmittedEntry(number: string, allowed: seq<string>)
    requires IsAllowed(number, allowed)
    ensures exists k :: 0 <= k < |allowed| && allowed[k] == Clean(number)
                        && '+' !in allowed[k] && ' ' !in allowed[k] && '@' !in allowed[k]
  {
    var k :| 0 <= k < |allowed| && allowed[k] == Clean(number);
  }

  /** With the allow list read from `WHATSAPP_ALLOWED_NUMBERS`, a number is
      admitted exactly when it cleans to a non-empty stripped field of the
      variable. */
  lemma AdmittedFromEnvironment(raw: string, number: string)
    ensures IsAllowed(number, Config.ParseAllowList(Some(raw)))
            <==> Clean(number) != "" && Clean(number) in Config.StripAll(Split(raw, ','))
  {
    Config.AllowListMembership(raw, Clean(number));
  }

  /** The webhook first cuts the JID at `@`, then `is_allowed` cleans again:
      the second cut changes nothing. */
  lemma CleanSender(jid: string)
    ensures Clean(Split(jid, '@')[0]) == Clean(jid)
  {
    var xs := Split(jid, '@');
    SplitJoin(jid, '@');
    if |xs| > 1 {
      var a := xs[0];
      var b := Join(xs[1..], ['@']);
      assert jid == a + ['@'] + b;
      CutsAtFirstAt(a, b);
    }
  }

  /** The fields of a `messages.upsert` event that the handler reads; `None`
      is a missing key. */
  datatype Inbound = Inbound(
    remoteJid: Option<string>,
    fromMe: Option<bool>,
    conversation: Option<string>,
    extendedText: Option<string>)

  /** `key.get("remoteJid", "").split("@")[0]` */
  function Sender(m: Inbound): (r: string)
    ensures '@' !in r
  {
    Split(m.remoteJid.Or(""), '@')[0]
  }

  /** `conversation or extendedTextMessage.text`, the latter defaulting to
      the empty text. */
  function Body(m: Inbound): (r: string)
    ensures m.conversation.Some? && m.conversation.value != "" ==> r == m.conversation.value
    ensures (m.conversation.None? || m.conversation.value == "") ==> r == m.extendedText.Or("")
  {
    if m.conversation.Some? && m.conversation.value != "" then m.conversation.value
    else m.extendedText.Or("")
  }

  datatype Command = Start | Stop | StatusCmd | Help | Unknown

  /** The command keywords, already stripped and lower-cased. */
  function Keyword(cmd: string): Command {
    if cmd in ["/start", "start", "iniciar"] then Start
    else if cmd in ["/stop", "stop", "parar"] then Stop
    else if cmd in ["/status", "status"] then StatusCmd
    else if cmd in ["/help", "help", "ajuda", "menu"] then Help
    else Unknown
  }

  /** `text.strip().lower()` matched against the keywords. */
  function ParseCommand(text: string): (r: Command)
    ensures AllSpace(text) ==> r == Unknown
  {
    var cmd := Lower(Strip(text));
    assert AllSpace(text) ==> cmd == [];
    Keyword(cmd)
  }

  /** Whitespace around a command does not change it. */
  lemma CommandIgnoresSurroundingSpace(w1: string, text: string, w2: string)
    requires AllSpace(w1) && AllSpace(w2)
    ensures ParseCommand(w1 + text + w2) == ParseCommand(text)
  {
    StripIgnoresSurroundingSpace(w1, text, w2);
    assert AllSpace(w1 + text + w2) <==> Strip(w1 + text + w2) == [];
  }

  /** A word with no whitespace at either end, typed with any surrounding
      whitespace, is looked up lower-cased: `"  Iniciar\n"` is `Start`. */
  lemma RecognisedCommand(w1: string, word: string, w2: string)
    requires AllSpace(w1) && AllSpace(w2)
    requires word != [] && !IsSpace(word[0]) && !IsSpace(word[|word| - 1])
    ensures ParseCommand(w1 + word + w2) == Keyword(Lower(word))
  {
    CommandIgnoresSurroundingSpace(w1, word, w2);
    StripKeeps(word);
  }

  /** Commands are case-insensitive. */
  lemma CommandIgnoresCase(text: string)
    ensures ParseCommand(Lower(text)) == ParseCommand(text)
  {
    LowerCommutesWithStrip(text);
    LowerIdempotent(Strip(text));
    assert |Strip(Lower(text))| == |Strip(text)|;
  }

  /** The message gets an answer: it is not the bot's own, it has text, and
      its sender is on the allow list. */
  predicate Admitted(allowed: seq<string>, m: Inbound) {
    m.fromMe != Some(true) && Body(m) != "" && IsAllowed(Sender(m), allowed)
  }

  /** What an admitted command does to the registry and what it answers:
      start subscribes the sender, stop unsubscribes it, every other
      command leaves the registry alone; nobody but the sender is ever
      affected, and every command is answered. */
  function Respond(cmd: Command, reg: set<string>, sender: string, statusText: string): (r: Handled<string>)
    ensures r.registry - {sender} == reg - {sender}
    ensures r.reply.Some?
    ensures cmd == Start ==> sender in r.registry && r.reply == Some(Activated)
    ensures cmd == Stop ==> sender !in r.registry && r.reply == Some(Paused)
    ensures cmd != Start && cmd != Stop ==> r.registry == reg
    ensures cmd == StatusCmd ==> r.reply == Some(Report(statusText))
    ensures cmd == Help ==> r.reply == Some(Menu(sender in reg))
    ensures cmd == Unknown ==> r.reply == Some(NotRecognized)
  {
    match cmd
    case Start => Handled(Subscribe(reg, sender), Some(Activated))
    case Stop => Handled(Unsubscribe(reg, sender), Some(Paused))
    case StatusCmd => Handled(reg, Some(Report(statusText)))
    case Help => Handled(reg, Some(Menu(sender in reg)))
    case Unknown => Handled(reg, Some(NotRecognized))
  }

  /** The `messages.upsert` branch: ignore the bot's own and empty
      messages, drop numbers not on the allow list without a reply, and
      otherwise answer the command. Start and stop subscribe and
      unsubscribe the sender; the menu shows whether the sender is
      subscribed; the status reply is the plain status text over one probe
      result per configured container. */
  function HandleMessage(allowed: seq<string>, reg: set<string>, m: Inbound,
                         names: seq<string>, samples: seq<Option<Sample>>, show: Sample -> string): (r: Handled<string>)
    requires |samples| == |names|
    ensures r.registry - {Sender(m)} == reg - {Sender(m)}
    ensures r.reply.None? <==> m.fromMe == Some(true) || Body(m) == "" || !IsAllowed(Sender(m), allowed)
    ensures !Admitted(allowed, m) ==> r.registry == reg
    ensures Admitted(allowed, m) && ParseCommand(Body(m)) == Start ==>
              Sender(m) in r.registry && r.reply == Some(Activated)
    ensures Admitted(allowed, m) && ParseCommand(Body(m)) == Stop ==>
              Sender(m) !in r.registry && r.reply == Some(Paused)
    ensures Admitted(allowed, m) && ParseCommand(Body(m)) !in {Start, Stop} ==> r.registry == reg
    ensures Admitted(allowed, m) && ParseCommand(Body(m)) == StatusCmd ==>
              r.reply == Some(Report(Status.FormatStatus(Status.Plain, names, samples, show)))
    ensures Admitted(allowed, m) && ParseCommand(Body(m)) == Help ==>
              r.reply == Some(Menu(Sender(m) in reg))
    ensures Admitted(allowed, m) && ParseCommand(Body(m)) == Unknown ==> r.reply == Some(NotRecognized)
  {
    var sender := Sender(m);
    if !Admitted(allowed, m) then Handled(reg, None)
    else Respond(ParseCommand(Body(m)), reg, sender, Status.FormatStatus(Status.Plain, names, samples, show))
  }

  /** A message of blanks gets past the emptiness test but is no command. */
  lemma BlankMessageNotRecognized(allowed: seq<string>, reg: set<string>, m: Inbound,
                                  names: seq<string>, samples: seq<Option<Sample>>, show: Sample -> string)
    requires |samples| == |names|
    requires Admitted(allowed, m) && AllSpace(Body(m))
    ensures HandleMessage(allowed, reg, m, names, samples, show) == Handled(reg, Some(NotRecognized))
  {
  }

  /** Delivering the same message twice leaves the registry as delivering it
      once did. */
  lemma HandleIdempotent(allowed: seq<string>, reg: set<string>, m: Inbound,
                         names: seq<string>, samples: seq<Option<Sample>>, show: Sample -> string)
    requires |samples| == |names|
    ensures var once := HandleMessage(allowed, reg, m, names, samples, show).registry;
            HandleMessage(allowed, once, m, names, samples, show).registry == once
  {
    if Admitted(allowed, m) {
      var cmd := ParseCommand(Body(m));
      var text := Status.FormatStatus(Status.Plain, names, samples, show);
      var once := Respond(cmd, reg, Sender(m), text).registry;
      RespondIdempotent(cmd, reg, Sender(m), text);
      assert HandleMessage(allowed, reg, m, names, samples, show).registry == once;
      assert HandleMessage(allowed, once, m, names, samples, show) == Respond(cmd, once, Sender(m), text);
    } else {
      assert HandleMessage(allowed, reg, m, names, samples, show) == Handled(reg, None);
    }
  }

  lemma RespondIdempotent(cmd: Command, reg: set<string>, sender: string, statusText: string)
    ensures var once := Respond(cmd, reg, sender, statusText).registry;
            Respond(cmd, once, sender, statusText).registry == once
  {
  }

  /** `start` then `stop` from a number that was not subscribed leaves the
      registry as it was. */
  lemma StartThenStop(allowed: seq<string>, reg: set<string>, start: Inbound, stop: Inbound,
                      names: seq<string>, samples: seq<Option<Sample>>, show: Sample -> string)
    requires |samples| == |names|
    requires Admitted(allowed, start) && ParseCommand(Body(start)) == Start
    requires Admitted(allowed, stop) && ParseCommand(Body(stop)) == Stop
    requires Sender(start) == Sender(stop) && Sender(start) !in reg
    ensures var mid := HandleMessage(allowed, reg, start, names, samples, show).registry;
            HandleMessage(allowed, mid, stop, names, samples, show).registry == reg
  {
    var s := Sender(start);
    var mid := HandleMessage(allowed, reg, start, names, samples, show).registry;
    assert mid == reg + {s};
    var after := HandleMessage(allowed, mid, stop, names, samples, show).registry;
    assert after - {s} == reg - {s} && s !in after;
  }

  /** `send_text` reports success exactly for HTTP 200 and 201. */
  predicate Accepted(status: int) {
    status == 200 || status == 201
  }

  /** `send_alert`: one `send_text` per subscribed number. A failed send is
      reported in `ok` and does not stop the others. */
  method SendAlert(numbers: set<string>, a: Alert, respond: string -> int)
    returns (block: seq<Delivery<string>>, ok: seq<bool>)
    ensures IsBroadcast(block, a, numbers)
    ensures |ok| == |block|
    ensures forall k :: 0 <= k < |block| ==> (ok[k] <==> Accepted(respond(block[k].dest)))
  {
    block := Broadcast(numbers, a);
    ok := seq(|block|, k requires 0 <= k < |block| => Accepted(respond(block[k].dest)));
  }
}
