/**
 * The state the six event handlers share, and what a handler invocation
 * does: the message-id tables after it, the calls it issued to the send,
 * edit, delete and channel-fetch helpers, the lines it logged, and whether
 * it ended by throwing.
 */
module Relay {
  import opened Wrappers
  import opened Messages

  /**
   * `stoatToDiscordMapping` (Stoat message id to Discord message id) and
   * `discordToStoatMapping` (Discord channel id to a table from Discord
   * message id to Stoat message id).
   */
  datatype Tables = Tables(s2d: map<string, string>, d2s: map<string, map<string, string>>)

  /** A call a handler issues, with the arguments that identify its target. */
  datatype Call =
    | SendToStoat(stoatChannelId: string, discordMessage: DiscordMessage)
    | EditInStoat(stoatChannelId: string, stoatMessageId: string, discordMessage: DiscordMessage)
    | DeleteInStoat(stoatChannelId: string, stoatMessageId: string)
    | FetchDiscordChannel(discordChannelId: string)
    | SendToDiscord(discordChannelId: string, stoatMessage: StoatMessage)
    | EditInDiscord(discordChannelId: string, discordMessageId: string, stoatMessage: StoatMessage)
    | DeleteInDiscord(discordChannelId: string, discordMessageId: string, stoatMessageId: string)

  /** How `discordClient.channels.fetch` settled: a channel, a null result, or a thrown error. */
  datatype ChannelFetch = Found | NotFound | FetchThrew(error: string)

  datatype Step = Step(tables: Tables, calls: seq<Call>, log: seq<string>, rejected: bool)

  /** The handler returned early: nothing called, nothing logged, nothing changed. */
  function Idle(t: Tables): Step {
    Step(t, [], [], false)
  }

  /** The Stoat message recorded for a Discord message of a channel, if any. */
  function RecordedStoatId(t: Tables, channelId: string, messageId: string): (r: Option<string>)
    ensures r.Some? <==> channelId in t.d2s && messageId in t.d2s[channelId]
    ensures r.Some? ==> r.value == t.d2s[channelId][messageId]
  {
    if channelId in t.d2s && messageId in t.d2s[channelId] then Some(t.d2s[channelId][messageId]) else None
  }

  /** The Discord message recorded for a Stoat message, if any. */
  function RecordedDiscordId(t: Tables, stoatMessageId: string): (r: Option<string>)
    ensures r.Some? <==> stoatMessageId in t.s2d
    ensures r.Some? ==> r.value == t.s2d[stoatMessageId]
  {
    if stoatMessageId in t.s2d then Some(t.s2d[stoatMessageId]) else None
  }

  /** The two tables record the same Stoat id for every Discord message but one. */
  ghost predicate SameRecordsExcept(a: Tables, b: Tables, channelId: string, messageId: string) {
    forall c, m | c != channelId || m != messageId :: RecordedStoatId(a, c, m) == RecordedStoatId(b, c, m)
  }

  /** Every recorded Stoat id is truthy, as only truthy send results are recorded. */
  predicate RecordsTruthy(t: Tables) {
    forall c, m | c in t.d2s && m in t.d2s[c] :: t.d2s[c][m] != ""
  }
}
