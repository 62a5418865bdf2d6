/**
 * The Stoat-side event handlers: a message created, edited or deleted in a
 * mirrored Stoat channel is relayed to the mapped Discord channel, and the
 * Stoat-to-Discord message table follows. `fetch` is how fetching the
 * Discord channel settled; `sent` is the id of the message the Discord send
 * helper returned (None when it returned null).
 */
module StoatEvents {
  import opened Wrappers
  import opened Messages
  import opened ChannelUtils
  import opened Relay
  import MessageHandler

  /** The handler gets past its eligibility checks. */
  predicate Relayed(config: Config, message: StoatMessage) {
    && ShouldMirrorChannel(message.channelId, config, Stoat)
    && message.author.Some?
    && !IsStoatBotMessage(message.author.value, config)
  }

  function NotFoundLine(discordChannelId: string): string {
    "Could not find Discord channel with ID " + discordChannelId
  }

  /**
   * messageCreate: fetches the mapped Discord channel for an eligible
   * message, sends the message there and records the sent message's id.
   * The mirror check comes first, so a message without an author in an
   * unmirrored channel is ignored; in a mirrored channel reading its
   * author's id throws.
   */
  function MessageCreate(t: Tables, config: Config, message: StoatMessage, fetch: ChannelFetch, sent: Option<string>): (r: Step)
    ensures !ShouldMirrorChannel(message.channelId, config, Stoat) ==> r == Idle(t)
    ensures r.rejected <==> ShouldMirrorChannel(message.channelId, config, Stoat) && message.author.None?
    ensures message.author.Some? && IsStoatBotMessage(message.author.value, config) ==> r == Idle(t)
    ensures r.tables.d2s == t.d2s
    ensures r.calls != [] <==> Relayed(config, message)
    ensures Relayed(config, message) ==>
              var target := config.maps.reverse[message.channelId];
              && r.calls[0] == FetchDiscordChannel(target)
              && (fetch.Found? ==> r.calls == [FetchDiscordChannel(target), SendToDiscord(target, message)])
              && (fetch.NotFound? ==> r.calls == [FetchDiscordChannel(target)] && r.log == [NotFoundLine(target)])
              && (fetch.FetchThrew? ==> r.calls == [FetchDiscordChannel(target)] && r.log == ["Error fetching Discord channel: " + fetch.error])
    ensures Relayed(config, message) && fetch.Found? && sent.Some? ==>
              message.id in r.tables.s2d && r.tables.s2d[message.id] == sent.value
              && forall k | k != message.id :: RecordedDiscordId(r.tables, k) == RecordedDiscordId(t, k)
    ensures !(Relayed(config, message) && fetch.Found? && sent.Some?) ==> r.tables == t
  {
    if !ShouldMirrorChannel(message.channelId, config, Stoat) then Idle(t)
    else if message.author.None? then Step(t, [], [], true)
    else if IsStoatBotMessage(message.author.value, config) then Idle(t)
    else if message.author.value.id == DiscordRestoreBotId then Idle(t)
    else
      var target := config.maps.reverse[message.channelId];
      var fetchCall := FetchDiscordChannel(target);
      match fetch
      case NotFound => Step(t, [fetchCall], [NotFoundLine(target)], false)
      case FetchThrew(e) => Step(t, [fetchCall], ["Error fetching Discord channel: " + e], false)
      case Found =>
        var calls := [fetchCall, SendToDiscord(target, message)];
        if sent.Some? then Step(t.(s2d := t.s2d[message.id := sent.value]), calls, [], false)
        else Step(t, calls, [], false)
  }

  /**
   * messageUpdate: an edit of a message with a truthy recorded Discord
   * counterpart, in a channel mirrored under the old message's channel id,
   * fetches the mapped Discord channel and edits the counterpart with the
   * OLD message's payload. There is no author check, the tables never
   * change, and a throwing channel fetch is not caught.
   */
  function MessageUpdate(t: Tables, config: Config, oldMessage: StoatMessage, newMessage: StoatMessage, fetch: ChannelFetch): (r: Step)
    ensures r.tables == t
    ensures r.calls != [] <==>
              ShouldMirrorChannel(oldMessage.channelId, config, Stoat) && Truthy(RecordedDiscordId(t, newMessage.id))
    ensures r.rejected <==> r.calls != [] && fetch.FetchThrew?
    ensures r.calls != [] ==>
              var target := config.maps.reverse[oldMessage.channelId];
              && r.calls[0] == FetchDiscordChannel(target)
              && (fetch.Found? ==> r.calls == [FetchDiscordChannel(target), EditInDiscord(target, t.s2d[newMessage.id], oldMessage)])
              && (!fetch.Found? ==> r.calls == [FetchDiscordChannel(target)])
              && (fetch.NotFound? ==> r.log == [NotFoundLine(target)])
  {
    if !ShouldMirrorChannel(oldMessage.channelId, config, Stoat) then Idle(t)
    else if !Truthy(RecordedDiscordId(t, newMessage.id)) then Idle(t)
    else
      var discordMessageId := t.s2d[newMessage.id];
      var target := config.maps.reverse[oldMessage.channelId];
      var fetchCall := FetchDiscordChannel(target);
      match fetch
      case FetchThrew(_) => Step(t, [fetchCall], [], true)
      case NotFound => Step(t, [fetchCall], [NotFoundLine(target)], false)
      case Found => Step(t, [fetchCall, EditInDiscord(target, discordMessageId, oldMessage)], [], false)
  }

  /**
   * messageDelete: a deleted message with a truthy recorded Discord
   * counterpart has that counterpart deleted through the Discord delete
   * helper, which alone drops the record, and only when its own fetch and
   * delete succeed. Errors are logged, never thrown.
   */
  function MessageDelete(t: Tables, config: Config, message: StoatMessage, fetch: ChannelFetch,
                         fetchError: Option<string>, deleteError: Option<string>): (r: Step)
    ensures !r.rejected && r.tables.d2s == t.d2s
    ensures r.calls != [] <==> ShouldMirrorChannel(message.channelId, config, Stoat) && Truthy(RecordedDiscordId(t, message.id))
    ensures r.calls != [] ==>
              var target := config.maps.reverse[message.channelId];
              && r.calls[0] == FetchDiscordChannel(target)
              && (fetch.Found? ==> r.calls == [FetchDiscordChannel(target), DeleteInDiscord(target, t.s2d[message.id], message.id)])
              && (!fetch.Found? ==> r.calls == [FetchDiscordChannel(target)])
              && (fetch.NotFound? ==> r.log == [NotFoundLine(target)])
              && (fetch.FetchThrew? ==> r.log == ["Failed to delete message in Discord: " + fetch.error])
    ensures r.calls != [] && fetch.Found? && fetchError.None? && deleteError.None? ==>
              r.tables.s2d == t.s2d - {message.id}
    ensures !(r.calls != [] && fetch.Found? && fetchError.None? && deleteError.None?) ==> r.tables == t
  {
    if !ShouldMirrorChannel(message.channelId, config, Stoat) then Idle(t)
    else if !Truthy(RecordedDiscordId(t, message.id)) then Idle(t)
    else
      var discordMessageId := t.s2d[message.id];
      var target := config.maps.reverse[message.channelId];
      var fetchCall := FetchDiscordChannel(target);
      match fetch
      case FetchThrew(e) => Step(t, [fetchCall], ["Failed to delete message in Discord: " + e], false)
      case NotFound => Step(t, [fetchCall], [NotFoundLine(target)], false)
      case Found =>
        var deletion := MessageHandler.DeleteMessageInDiscord(t.s2d, discordMessageId, message.id, fetchError, deleteError);
        Step(t.(s2d := deletion.s2d), [fetchCall, DeleteInDiscord(target, discordMessageId, message.id)], deletion.log, false)
  }

  /**
   * In a mirrored channel, a message by any author other than the bridge's
   * Stoat account and the Discord-Restore bot is relayed: the mapped Discord
   * channel is fetched, the message is sent there when it is found, and the
   * sent message is recorded.
   */
  lemma OtherAuthorsRelayed(t: Tables, config: Config, message: StoatMessage, fetch: ChannelFetch, sent: Option<string>)
    requires ShouldMirrorChannel(message.channelId, config, Stoat)
    requires message.author.Some?
    requires message.author.value.id != config.stoatBotId && message.author.value.id != DiscordRestoreBotId
    ensures var r := MessageCreate(t, config, message, fetch, sent);
            var target := config.maps.reverse[message.channelId];
            && !r.rejected
            && r.calls[0] == FetchDiscordChannel(target)
            && (fetch.Found? ==> r.calls == [FetchDiscordChannel(target), SendToDiscord(target, message)])
            && (fetch.Found? && sent.Some? ==> RecordedDiscordId(r.tables, message.id) == sent)
  {
  }

  /** A message posted by the bridge's own Stoat account is never relayed back to Discord. */
  lemma OwnAccountNotEchoed(t: Tables, config: Config, message: StoatMessage, fetch: ChannelFetch, sent: Option<string>)
    requires message.author.Some? && message.author.value.id == config.stoatBotId
    ensures MessageCreate(t, config, message, fetch, sent) == Idle(t)
  {
  }

  /** Once a message's send is recorded, editing it edits the recorded Discord message. */
  lemma CreateThenUpdate(t: Tables, config: Config, message: StoatMessage, sent: Option<string>,
                         oldMessage: StoatMessage, newMessage: StoatMessage)
    requires Relayed(config, message) && Truthy(sent)
    requires oldMessage.channelId == message.channelId && newMessage.id == message.id
    ensures MessageUpdate(MessageCreate(t, config, message, Found, sent).tables, config, oldMessage, newMessage, Found).calls
         == [FetchDiscordChannel(config.maps.reverse[message.channelId]),
             EditInDiscord(config.maps.reverse[message.channelId], sent.value, oldMessage)]
  {
  }

  /**
   * Once a message's send is recorded, deleting it deletes the recorded
   * Discord message; the record is forgotten iff the Discord fetch and
   * delete both succeed.
   */
  lemma CreateThenDelete(t: Tables, config: Config, message: StoatMessage, sent: Option<string>,
                         fetchError: Option<string>, deleteError: Option<string>)
    requires Relayed(config, message) && Truthy(sent)
    ensures var created := MessageCreate(t, config, message, Found, sent);
            var r := MessageDelete(created.tables, config, message, Found, fetchError, deleteError);
            && r.calls[1] == DeleteInDiscord(config.maps.reverse[message.channelId], sent.value, message.id)
            && (message.id !in r.tables.s2d <==> fetchError.None? && deleteError.None?)
  {
  }

  /** The update path does not look at who wrote the message. */
  lemma UpdateIgnoresAuthor(t: Tables, config: Config, oldMessage: StoatMessage, newMessage: StoatMessage,
                            a: Option<StoatAuthor>, b: Option<StoatAuthor>, fetch: ChannelFetch)
    ensures MessageUpdate(t, config, oldMessage, newMessage, fetch).calls != []
        <==> MessageUpdate(t, config, oldMessage.(author := a), newMessage.(author := b), fetch).calls != []
  {
  }
}
