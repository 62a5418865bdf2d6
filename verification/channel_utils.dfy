/**
 * The eligibility filter: whether a channel is mirrored in a direction, and
 * whether a message came from the bridge itself and must not be relayed
 * again.
 */
module ChannelUtils {
  import opened Wrappers
  import ChannelMapping
  import opened Messages

  /** The account of the Discord-Restore bot, which is never mirrored, whatever the configuration. */
  const DiscordRestoreBotId := "01KH706FEP6ZVDTD0Y99W3FVEZ"

  /**
   * What the handlers read from the configuration: the channel maps
   * (`CHANNEL_MAPPING` forward, `STOAT_TO_DISCORD_MAPPING` reverse) and the
   * bridge's own account ids on both platforms.
   */
  datatype Config = Config(maps: ChannelMapping.ChannelMaps, stoatBotId: string, discordBotId: string)

  /** Which platform an event comes from: the `isStoatChannel` / `isStoatMessage` flag. */
  datatype Platform = Stoat | Discord

  /** The channel has an entry (of any value) in the index for its platform. */
  predicate ShouldMirrorChannel(channelId: string, config: Config, platform: Platform) {
    match platform
    case Stoat => channelId in config.maps.reverse
    case Discord => channelId in config.maps.forward
  }

  /** A Stoat message by the bridge's own Stoat account or by the Discord-Restore bot. */
  predicate IsStoatBotMessage(author: StoatAuthor, config: Config) {
    author.id == config.stoatBotId || author.id == DiscordRestoreBotId
  }

  /**
   * A Discord message by the bridge's own account, or posted through a
   * webhook that the bridge's application owns.
   */
  predicate IsDiscordBotMessage(message: DiscordMessage, config: Config) {
    if message.author.id == config.discordBotId then true
    else if Truthy(message.webhookId) && message.applicationId == Some(config.discordBotId) then true
    else false
  }

  /** The Discord-Restore bot is a bot on the Stoat side under every configuration. */
  lemma RestoreBotAlwaysIgnored(author: StoatAuthor, config: Config)
    requires author.id == DiscordRestoreBotId
    ensures IsStoatBotMessage(author, config)
  {
  }

  /** After a mapping is added, both its channels are mirrored, each on its own side. */
  lemma MirrorAfterAdd(doc: ChannelMapping.Document, d: string, s: string, stoatBot: string, discordBot: string)
    ensures var c := Config(ChannelMapping.AddChannelMapping(doc, d, s).maps, stoatBot, discordBot);
            ShouldMirrorChannel(d, c, Discord) && ShouldMirrorChannel(s, c, Stoat)
  {
  }

  /** After a mapped Discord channel is removed, it is no longer mirrored, nor is its Stoat partner. */
  lemma MirrorAfterRemove(m: ChannelMapping.ChannelMaps, d: string, stoatBot: string, discordBot: string)
    requires ChannelMapping.ExactInverse(m)
    requires d in m.forward && m.forward[d] != ""
    ensures var c := Config(ChannelMapping.Remove(m, d).maps, stoatBot, discordBot);
            !ShouldMirrorChannel(d, c, Discord) && !ShouldMirrorChannel(m.forward[d], c, Stoat)
  {
  }

  /**
   * With freshly loaded maps, a Stoat channel is mirrored iff some Discord
   * channel maps to it.
   */
  lemma MirrorLoadedStoat(doc: ChannelMapping.Document, s: string, stoatBot: string, discordBot: string)
    ensures var m := ChannelMapping.Load(doc);
            (ShouldMirrorChannel(s, Config(m, stoatBot, discordBot), Stoat)
             <==> exists d | d in m.forward :: m.forward[d] == s)
  {
    ChannelMapping.LoadDerivesReverse(doc);
  }
}
