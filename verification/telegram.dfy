/** The Telegram bot's command handlers (monitor.py): `/start`, `/stop`,
    `/status` and `/id`. The allow list holds user ids and the registry
    holds chat ids, so an allowed user subscribes the chat the command was
    sent from. */
module Telegram {
  import opened Optional
  import opened Registry
  import opened Probe
  import Status

  /** The parts of an update the handlers read. */
  datatype Update = Update(userId: int, chatId: int)

  /** `is_allowed`: membership of the user id in `ALLOWED_USERS`. */
  predicate IsAllowed(userId: int, allowed: seq<int>) {
    userId in allowed
  }

  /** `cmd_start`: a stranger is told there is no permission; an allowed
      user subscribes the chat and gets the configuration summary. */
  function CmdStart(allowed: seq<int>, reg: set<int>, u: Update): (r: Handled<int>)
    ensures r.reply.Some?
    ensures r.reply == Some(Denied) <==> !IsAllowed(u.userId, allowed)
    ensures !IsAllowed(u.userId, allowed) ==> r.registry == reg
    ensures IsAllowed(u.userId, allowed) ==>
              r.reply == Some(Activated) && u.chatId in r.registry && r.registry - {u.chatId} == reg - {u.chatId}
  {
    if !IsAllowed(u.userId, allowed) then Handled(reg, Some(Denied))
    else Handled(Subscribe(reg, u.chatId), Some(Activated))
  }

  /** `cmd_stop`: a stranger gets no answer and changes nothing; an allowed
      user unsubscribes the chat. */
  function CmdStop(allowed: seq<int>, reg: set<int>, u: Update): (r: Handled<int>)
    ensures r.reply.None? <==> !IsAllowed(u.userId, allowed)
    ensures !IsAllowed(u.userId, allowed) ==> r.registry == reg
    ensures IsAllowed(u.userId, allowed) ==>
              r.reply == Some(Paused) && u.chatId !in r.registry && r.registry - {u.chatId} == reg - {u.chatId}
  {
    if !IsAllowed(u.userId, allowed) then Handled(reg, None)
    else Handled(Unsubscribe(reg, u.chatId), Some(Paused))
  }

  /** `cmd_status`: only allowed users get an answer, the Markdown status
      text over one probe result per configured container; the registry
      never changes. */
  function CmdStatus(allowed: seq<int>, reg: set<int>, u: Update,
                     names: seq<string>, samples: seq<Option<Sample>>, show: Sample -> string): (r: Handled<int>)
    requires |samples| == |names|
    ensures r.registry == reg
    ensures r.reply.None? <==> !IsAllowed(u.userId, allowed)
    ensures r.reply.Some? ==> r.reply == Some(Report(Status.FormatStatus(Status.Markdown, names, samples, show)))
  {
    if !IsAllowed(u.userId, allowed) then Handled(reg, None)
    else Handled(reg, Some(Report(Status.FormatStatus(Status.Markdown, names, samples, show))))
  }

  /** `cmd_id`: anyone, allowed or not, is told their own user id. */
  function CmdId(reg: set<int>, u: Update): (r: Handled<int>)
    ensures r.registry == reg
    ensures r.reply.Some? && r.reply.value.YourId? && r.reply.value.userId == u.userId
  {
    Handled(reg, Some(YourId(u.userId)))
  }

  /** Only an allowed user changes the registry, and only through the chat
      the command came from. */
  lemma StrangerCannotSubscribe(allowed: seq<int>, reg: set<int>, u: Update,
                                names: seq<string>, samples: seq<Option<Sample>>, show: Sample -> string)
    requires |samples| == |names| && !IsAllowed(u.userId, allowed)
    ensures CmdStart(allowed, reg, u).registry == reg
    ensures CmdStop(allowed, reg, u).registry == reg
    ensures CmdStatus(allowed, reg, u, names, samples, show).registry == reg
    ensures CmdId(reg, u).registry == reg
  {
  }

  /** `/start` then `/stop` from an allowed user in a chat that was not
      subscribed leaves the registry as it was; `/start` is idempotent. */
  lemma StartStopRoundTrip(allowed: seq<int>, reg: set<int>, u: Update)
    requires IsAllowed(u.userId, allowed) && u.chatId !in reg
    ensures CmdStop(allowed, CmdStart(allowed, reg, u).registry, u).registry == reg
    ensures CmdStart(allowed, CmdStart(allowed, reg, u).registry, u).registry == CmdStart(allowed, reg, u).registry
  {
    var mid := CmdStart(allowed, reg, u).registry;
    assert mid == reg + {u.chatId};
  }

  /** A user subscribed from two chats is still subscribed in the other
      after stopping in one: the registry is keyed by chat. */
  lemma StopIsPerChat(allowed: seq<int>, reg: set<int>, u: Update, other: int)
    requires IsAllowed(u.userId, allowed) && other in reg && other != u.chatId
    ensures other in CmdStop(allowed, reg, u).registry
  {
  }
}
