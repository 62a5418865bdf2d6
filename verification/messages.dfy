/**
 * The message records the two chat SDKs deliver to the event handlers,
 * reduced to the fields the mirror reads.
 */
module Messages {
  import opened Wrappers
  import Formatter

  /** An entry of a Discord message's attachment collection. */
  datatype DiscordAttachment = DiscordAttachment(id: string, name: string, url: string)

  /** `message.author` of a Discord message; `avatarURL()` yields null without an avatar. */
  datatype DiscordAuthor = DiscordAuthor(id: string, username: string, avatarURL: Option<string>)

  /**
   * A Discord message. `webhookId` is set when a webhook posted it and
   * `applicationId` names the application that owns that webhook.
   */
  datatype DiscordMessage = DiscordMessage(
    id: string,
    channelId: string,
    author: DiscordAuthor,
    webhookId: Option<string>,
    applicationId: Option<string>,
    content: string,
    mentions: Formatter.Mentions,
    attachments: seq<DiscordAttachment>)

  /** A file attached to a Stoat message, served by the file server under its id. */
  datatype StoatAttachment = StoatAttachment(id: string, name: string)

  /** `message.attachments` of a Stoat message: absent, a single object, or an array. */
  datatype StoatAttachments =
    | NoAttachments
    | OneAttachment(single: StoatAttachment)
    | AttachmentList(items: seq<StoatAttachment>)

  /**
   * `message.author` of a Stoat message. `hasAvatar` is the truthiness of
   * `author.avatar`; `avatarURL` is the text the author's avatar URL renders to.
   */
  datatype StoatAuthor = StoatAuthor(id: string, username: Option<string>, hasAvatar: bool, avatarURL: string)

  /** A Stoat message; the author may be missing from a partial event. */
  datatype StoatMessage = StoatMessage(
    id: string,
    channelId: string,
    author: Option<StoatAuthor>,
    content: string,
    attachments: StoatAttachments)

  /** `Array.isArray(a) ? a : [a]` behind a truthiness test: the attachments as a list. */
  function AttachmentItems(a: StoatAttachments): (items: seq<StoatAttachment>)
    ensures a.NoAttachments? ==> items == []
    ensures a.OneAttachment? ==> items == [a.single]
    ensures a.AttachmentList? ==> items == a.items
  {
    match a
    case NoAttachments => []
    case OneAttachment(x) => [x]
    case AttachmentList(xs) => xs
  }
}
