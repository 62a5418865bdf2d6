/**
 * The Discord-side event handlers: a message created, edited or deleted in
 * a mirrored Discord channel is relayed to the mapped Stoat channel, and
 * the Discord-to-Stoat message table follows. The helpers' settlements are
 * parameters: `sent` is what the Stoat send helper returned, `deleted` what
 * the Stoat delete helper returned.
 */
module DiscordEvents {
  import opened Wrappers
  import opened Messages
  import opened ChannelUtils
  import opened Relay
  import MessageHandler

  /** The handler gets past its eligibility checks. */
  predicate Relayed(config: Config, message: DiscordMessage) {
    ShouldMirrorChannel(message.channelId, config, Discord) && !IsDiscordBotMessage(message, config)
  }

  /** The channel's table, or the empty table a first success creates. */
  function ChannelTable(t: Tables, channelId: string): map<string, string> {
    if channelId in t.d2s then t.d2s[channelId] else map[]
  }

  /**
   * messageCreate: relays an eligible message to the mapped Stoat channel
   * and, when the send returned a truthy id, records it for the message.
   */
  function MessageCreate(t: Tables, config: Config, message: DiscordMessage, sent: Option<string>): (r: Step)
    ensures !ShouldMirrorChannel(message.channelId, config, Discord) ==> r == Idle(t)
    ensures IsDiscordBotMessage(message, config) ==> r == Idle(t)
    ensures Relayed(config, message) ==> r.calls == [SendToStoat(config.maps.forward[message.channelId], message)]
    ensures !r.rejected && r.log == [] && r.tables.s2d == t.s2d
    ensures Relayed(config, message) && Truthy(sent) ==>
              && RecordedStoatId(r.tables, message.channelId, message.id) == sent
              && SameRecordsExcept(r.tables, t, message.channelId, message.id)
    ensures !(Relayed(config, message) && Truthy(sent)) ==> r.tables == t
  {
    if !ShouldMirrorChannel(message.channelId, config, Discord) then Idle(t)
    else if IsDiscordBotMessage(message, config) then Idle(t)
    else
      var stoatChannelId := config.maps.forward[message.channelId];
      var calls := [SendToStoat(stoatChannelId, message)];
      if Truthy(sent) then
        var table := ChannelTable(t, message.channelId)[message.id := sent.value];
        Step(t.(d2s := t.d2s[message.channelId := table]), calls, [], false)
      else
        Step(t, calls, [], false)
  }

  /**
   * messageUpdate: an edit of an eligible message that has a recorded Stoat
   * counterpart is relayed to it. The tables never change.
   */
  function MessageUpdate(t: Tables, config: Config, newMessage: DiscordMessage): (r: Step)
    ensures r.tables == t && !r.rejected && r.log == []
    ensures r.calls != [] <==> Relayed(config, newMessage) && RecordedStoatId(t, newMessage.channelId, newMessage.id).Some?
    ensures r.calls != [] ==>
              r.calls == [EditInStoat(config.maps.forward[newMessage.channelId],
                                      RecordedStoatId(t, newMessage.channelId, newMessage.id).value, newMessage)]
  {
    if !ShouldMirrorChannel(newMessage.channelId, config, Discord) then Idle(t)
    else if IsDiscordBotMessage(newMessage, config) then Idle(t)
    else if newMessage.channelId !in t.d2s || newMessage.id !in t.d2s[newMessage.channelId] then Idle(t)
    else
      var stoatChannelId := config.maps.forward[newMessage.channelId];
      var stoatMessageId := t.d2s[newMessage.channelId][newMessage.id];
      Step(t, [EditInStoat(stoatChannelId, stoatMessageId, newMessage)], [], false)
  }

  /**
   * messageDelete: deleting a message with a recorded Stoat counterpart
   * deletes that counterpart; the record is dropped only when the delete
   * succeeded. There is no author check on this path.
   */
  function MessageDelete(t: Tables, config: Config, message: DiscordMessage, deleted: bool): (r: Step)
    ensures !r.rejected && r.log == [] && r.tables.s2d == t.s2d
    ensures r.calls != [] <==>
              ShouldMirrorChannel(message.channelId, config, Discord) && RecordedStoatId(t, message.channelId, message.id).Some?
    ensures r.calls != [] ==>
              r.calls == [DeleteInStoat(config.maps.forward[message.channelId], RecordedStoatId(t, message.channelId, message.id).value)]
    ensures r.calls != [] && deleted ==>
              && RecordedStoatId(r.tables, message.channelId, message.id).None?
              && SameRecordsExcept(r.tables, t, message.channelId, message.id)
    ensures !(r.calls != [] && deleted) ==> r.tables == t
  {
    if !ShouldMirrorChannel(message.channelId, config, Discord) then Idle(t)
    else if message.channelId !in t.d2s || message.id !in t.d2s[message.channelId] then Idle(t)
    else
      var channelMap := t.d2s[message.channelId];
      var stoatMessageId := channelMap[message.id];
      var stoatChannelId := config.maps.forward[message.channelId];
      var calls := [DeleteInStoat(stoatChannelId, stoatMessageId)];
      if deleted then
        Step(t.(d2s := t.d2s[message.channelId := channelMap - {message.id}]), calls, [], false)
      else
        Step(t, calls, [], false)
  }

  /** A message the bridge itself posted through its webhook is never relayed back to Stoat. */
  lemma OwnWebhookNotEchoed(t: Tables, config: Config, message: DiscordMessage, sent: Option<string>)
    requires Truthy(message.webhookId) && message.applicationId == Some(config.discordBotId)
    ensures MessageCreate(t, config, message, sent) == Idle(t)
    ensures MessageUpdate(t, config, message) == Idle(t)
  {
  }

  /**
   * In a mirrored channel, a message by anyone but the bridge is sent to the
   * mapped Stoat channel unless the bridge's own application posted it:
   * webhook messages of other applications are relayed.
   */
  lemma ForeignWebhookRelayed(t: Tables, config: Config, message: DiscordMessage, sent: Option<string>)
    requires ShouldMirrorChannel(message.channelId, config, Discord)
    requires message.author.id != config.discordBotId
    requires message.applicationId != Some(config.discordBotId)
    ensures MessageCreate(t, config, message, sent).calls
         == [SendToStoat(config.maps.forward[message.channelId], message)]
  {
  }

  /** Once a message's send is recorded, editing it edits the recorded Stoat message. */
  lemma CreateThenUpdate(t: Tables, config: Config, message: DiscordMessage, sent: Option<string>, edited: DiscordMessage)
    requires Relayed(config, message) && Truthy(sent)
    requires edited.channelId == message.channelId && edited.id == message.id
    requires !IsDiscordBotMessage(edited, config)
    ensures MessageUpdate(MessageCreate(t, config, message, sent).tables, config, edited).calls
         == [EditInStoat(config.maps.forward[message.channelId], sent.value, edited)]
  {
  }

  /**
   * Once a message's send is recorded, deleting it deletes the recorded
   * Stoat message; a successful delete forgets the record and a failed one
   * keeps it.
   */
  lemma CreateThenDelete(t: Tables, config: Config, message: DiscordMessage, sent: Option<string>, deleted: bool)
    requires Relayed(config, message) && Truthy(sent)
    ensures var created := MessageCreate(t, config, message, sent);
            var r := MessageDelete(created.tables, config, message, deleted);
            && r.calls == [DeleteInStoat(config.maps.forward[message.channelId], sent.value)]
            && (deleted ==> RecordedStoatId(r.tables, message.channelId, message.id).None?)
            && (!deleted ==> RecordedStoatId(r.tables, message.channelId, message.id) == sent)
  {
  }

  /**
   * The edit relayed after a recorded send, carried out by the Stoat edit
   * helper, patches exactly the recorded Stoat message, and reports success
   * iff the request raised no HTTP error.
   */
  lemma CreateThenEditInStoat(t: Tables, config: Config, message: DiscordMessage, sent: Option<string>,
                              edited: DiscordMessage, content: string, error: Option<MessageHandler.HttpError>)
    requires Relayed(config, message) && Truthy(sent)
    requires edited.channelId == message.channelId && edited.id == message.id
    requires !IsDiscordBotMessage(edited, config)
    ensures var calls := MessageUpdate(MessageCreate(t, config, message, sent).tables, config, edited).calls;
            && |calls| == 1
            && var helper := MessageHandler.EditMessageInStoat(calls[0].stoatChannelId, calls[0].stoatMessageId, content, error);
            && helper.request == MessageHandler.PatchMessage(config.maps.forward[message.channelId], sent.value, content)
            && (helper.ok <==> error.None?)
  {
    CreateThenUpdate(t, config, message, sent, edited);
  }

  /**
   * messageDelete fed with the Stoat delete helper's own result: the helper
   * deletes exactly the call's target, and the record is dropped iff the
   * request raised no HTTP error; every other record stays.
   */
  lemma DeleteThroughStoatHelper(t: Tables, config: Config, message: DiscordMessage, error: Option<MessageHandler.HttpError>)
    requires ShouldMirrorChannel(message.channelId, config, Discord)
    requires RecordedStoatId(t, message.channelId, message.id).Some?
    ensures var target := config.maps.forward[message.channelId];
            var recorded := RecordedStoatId(t, message.channelId, message.id).value;
            var helper := MessageHandler.DeleteMessageInStoat(target, recorded, error);
            var r := MessageDelete(t, config, message, helper.ok);
            && helper.request == MessageHandler.DeleteMessage(target, recorded)
            && r.calls == [DeleteInStoat(target, recorded)]
            && (RecordedStoatId(r.tables, message.channelId, message.id).None? <==> error.None?)
            && SameRecordsExcept(r.tables, t, message.channelId, message.id)
  {
  }

  /** The delete path does not look at who wrote the message. */
  lemma DeleteIgnoresAuthor(t: Tables, config: Config, message: DiscordMessage, author: DiscordAuthor,
                            webhookId: Option<string>, applicationId: Option<string>, deleted: bool)
    ensures MessageDelete(t, config, message, deleted)
         == MessageDelete(t, config, message.(author := author, webhookId := webhookId, applicationId := applicationId), deleted)
  {
  }

  /** No Discord handler records an empty Stoat id. */
  lemma HandlersKeepRecordsTruthy(t: Tables, config: Config, message: DiscordMessage, sent: Option<string>, deleted: bool)
    requires RecordsTruthy(t)
    ensures RecordsTruthy(MessageCreate(t, config, message, sent).tables)
    ensures RecordsTruthy(MessageUpdate(t, config, message).tables)
    ensures RecordsTruthy(MessageDelete(t, config, message, deleted).tables)
  {
  }
}
