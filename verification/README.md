# Stoat-Sync, modelled in Dafny

Stoat-Sync mirrors chat messages between Discord channels and Stoat channels.

- A message created, edited or deleted on one side is posted, edited or deleted on the other.
- Discord receives messages through a channel webhook that carries the Stoat author's name and avatar.
- Stoat receives messages through its API, with a masquerade that carries the Discord author's name and avatar.
- Two in-memory tables remember which message mirrors which, so that later edits and deletes reach their counterpart.

This project models the core of the bridge as pure functions over immutable values, and proves properties of that model. The core is:

- **the content transcoder** (`Text`, `Formatter`). It rewrites markup between the two dialects: user and role mentions, channel-id translation, `||` and `!!` spoilers, and `@everyone` escaping.
- **the channel mapping store** (`ChannelMapping`). It holds the forward index (Discord channel to Stoat channel), which is persisted, and the reverse index derived from it.
- **the eligibility filter** (`ChannelUtils`). It decides whether a channel is mirrored and whether a message came from the bridge itself.
- **webhook acquisition** (`Webhook`). It reuses a webhook whose name starts with `stoat`, or creates one named after the channel's slug.
- **the send, edit and delete helpers** (`MessageHandler`, with the message records in `Messages`).
- **the six event handlers** (`DiscordEvents`, `StoatEvents`, sharing `Relay`). Each handler is a step function over the two message-id tables.

Every effect is a parameter that says how it settled. This covers HTTP calls, the chat SDKs and the file system. Examples:

- `Attempt<T>`: a value, or the error message that was thrown.
- `ChannelFetch`: a channel fetch that found the channel, found nothing, or threw.
- `UploadOutcome`: the result of an upload.
- A function parameter such as `download: StoatAttachment -> Attempt<string>`, for an outcome per attachment.

Every operation returns what it asked the outside world to do, what it returns to its caller, and the lines it logged.

The helpers take the text already formatted, through a `content` parameter. In the source, `messageHandler.js` formats with the one-argument root `messageFormatter.js`. The event handlers import `src/messageHandler.js`, which is not part of this model. The formatter modelled here is `src/messageFormatter.js`. The helpers of the root `messageHandler.js` stand in for those of `src/messageHandler.js` wherever the handlers use them; `StoatEvents.MessageDelete`, for instance, composes the root `deleteMessageInDiscord`.

## Model

| member | source | states |
|---|---|---|
| Formatter.ConvertUnrecognised | src/messageFormatter.js:52-64 | an id that is neither all digits nor starts with 26 id characters is returned unchanged |
| Formatter.ConvertDiscordId | src/messageFormatter.js:54-57 | an all-digit id becomes its forward-map value when that value is present and non-empty, and otherwise stays itself; the reverse map has no influence |
| Formatter.ConvertStoatId | src/messageFormatter.js:59-61 | a non-numeric id whose first 26 characters are id characters becomes its reverse-map value when present and non-empty, and otherwise stays itself; the forward map has no influence |
| Formatter.ConvertRoundTrip | src/messageFormatter.js:52-64 | with exactly inverse maps, converting a mapped Discord id and then converting the result gives back the Discord id |
| Formatter.ConvertRoundTripFromStoat | src/messageFormatter.js:52-64 | with exactly inverse maps, converting a mapped Stoat id twice gives back the Stoat id |
| Formatter.RewriteDigitToken | src/messageFormatter.js:40-44 | a `<#digits>` token at the head becomes `<#` + converted id + `>`, and rewriting continues after it |
| Formatter.RewriteDigitPlain | src/messageFormatter.js:40-44 | a character other than `<` is copied unchanged |
| Formatter.RewriteDigitAbsent | src/messageFormatter.js:40-44 | text without `<#` is left unchanged by the channel-mention rewrite towards Stoat |
| Formatter.RewriteDigitUnmapped | src/messageFormatter.js:40-44 | when no all-digit id is mapped, every `<#digits>` token and all other text are left unchanged |
| Formatter.RewriteStoatToken | src/messageFormatter.js:8-12 | a `<#` + 26 id characters + `>` token at the head becomes `<#` + converted id + `>`, and rewriting continues after it |
| Formatter.RewriteStoatPlain | src/messageFormatter.js:8-12 | a character other than `<` is copied unchanged |
| Formatter.RewriteStoatAbsent | src/messageFormatter.js:8-12 | text without `<#` is left unchanged by the channel-mention rewrite towards Discord |
| Formatter.RewriteStoatUnmapped | src/messageFormatter.js:8-12 | when no token id is mapped, the text is left unchanged |
| Formatter.UserToken | src/messageFormatter.js:24-29 | a listed user's `<@id>` token becomes `@username` |
| Formatter.UserNickToken | src/messageFormatter.js:24-29 | a listed user's `<@!id>` token becomes `@username` |
| Formatter.OtherUserToken | src/messageFormatter.js:26-28 | one user's replacement leaves the `<@id>` token of a different all-digit id intact |
| Formatter.UnlistedUserToken | src/messageFormatter.js:24-29 | a `<@id>` token whose id is not in the mention list survives all the user replacements |
| Formatter.ListedUserToken | src/messageFormatter.js:24-29 | the `<@id>` token of the k-th listed user becomes `@username` after all the user replacements |
| Formatter.OtherUserNickToken | src/messageFormatter.js:26-28 | one user's replacement leaves the `<@!id>` token of a different all-digit id intact |
| Formatter.UnlistedUserNickToken | src/messageFormatter.js:24-29 | a `<@!id>` token whose id is not in the mention list survives all the user replacements |
| Formatter.ListedUserNickToken | src/messageFormatter.js:24-29 | the `<@!id>` token of the k-th listed user becomes `@username` after all the user replacements |
| Formatter.UserPlainChunk | src/messageFormatter.js:24-29 | text without `<` passes through one user's replacement untouched |
| Formatter.UsersPlainChunk | src/messageFormatter.js:24-29 | text without `<` passes through all the user replacements untouched |
| Formatter.RoleToken | src/messageFormatter.js:32-37 | a role's `<@&id>` token becomes `@name`, and the scan resumes after it |
| Formatter.OtherRoleToken | src/messageFormatter.js:34-35 | one role's replacement leaves the `<@&id>` token of a different all-digit id intact |
| Formatter.RolesPlainChunk | src/messageFormatter.js:32-37 | text without `<` passes through all the role replacements untouched |
| Formatter.UnlistedRoleToken | src/messageFormatter.js:32-37 | a `<@&id>` token whose id is not in the role list survives all the role replacements |
| Formatter.ListedRoleToken | src/messageFormatter.js:32-37 | the `<@&id>` token of the k-th listed role becomes `@name` after all the role replacements |
| Formatter.MentionsAbsent | src/messageFormatter.js:24-37 | text without `<@` is left unchanged by the user and role replacements |
| Formatter.EscapeWrapsAll | src/messageFormatter.js:47 | after escaping, every occurrence of `@everyone` is wrapped in backquotes |
| Formatter.FormattersEscapeEveryone | src/messageFormatter.js:15-47 | the output of both formatters has every `@everyone` wrapped in backquotes |
| Formatter.SpoilersSwapped | src/messageFormatter.js:15-47 | no `\|\|` is left in text formatted for Stoat and no `!!` in text formatted for Discord |
| Formatter.FormatForStoatPlain | src/messageFormatter.js:20-50 | text without `<@`, `<#`, `\|\|` or `@everyone` is returned unchanged towards Stoat |
| Formatter.FormatForDiscordPlain | src/messageFormatter.js:4-18 | text without `<#`, `!!` or `@everyone` is returned unchanged towards Discord |
| Formatter.DiscordRoundTrip | src/messageFormatter.js:15-47 | text without `<`, `!` or `@`, formatted for Stoat and then for Discord, is the original text |
| Formatter.StoatRoundTrip | src/messageFormatter.js:15-47 | text without `<`, `\|` or `@`, formatted for Discord and then for Stoat, is the original text |
| Text.ReplaceAllAbsent | src/messageFormatter.js:47 | replacing a word the text does not contain leaves the text unchanged |
| Text.SwapRoundTrip | src/messageFormatter.js:15-47 | swapping `aa` for `bb` and back restores any text that does not contain `b` |
| Text.SwapLeavesNoPair | src/messageFormatter.js:47 | swapping every `aa` for `bb` leaves no two adjacent `a`s |
| Text.SwapPositions | src/messageFormatter.js:47 | the spoiler swap keeps the length and changes a character only by turning an `a` into a `b` |
| Text.ReplaceAllKeepsNoPair | src/messageFormatter.js:47 | escaping `@everyone` with a replacement free of `a` never joins two `a`s |
| Text.ReplaceAllKeepsAbsent | src/messageFormatter.js:47 | a character absent from both the text and the replacement is absent from the result |
| Text.DecimalRoundTrip | messageHandler.js:196 | reading back the rendered decimal digits of a status code gives the status code |
| ChannelMapping.Load | src/utils/channelMappingUtils.js:25-42 | an unreadable, unparsable (duplicate key), empty or null document yields two empty maps |
| ChannelMapping.ForwardOfEntries | src/utils/channelMappingUtils.js:30 | the loaded forward index has exactly the document's keys, each mapped to its value |
| ChannelMapping.LoadedReverseCovers | src/utils/channelMappingUtils.js:32-35 | the derived reverse index points back into the forward index and covers every Stoat id it uses |
| ChannelMapping.LoadDerivesReverse | src/utils/channelMappingUtils.js:32-35 | for any loaded document, reverse covers forward, and is its exact inverse when forward is injective |
| ChannelMapping.SaveThenLoad | src/utils/channelMappingUtils.js:25-53 | the document written for a forward index loads back as that forward index, with a reverse index that is its exact inverse when no Stoat id is shared |
| ChannelMapping.Add | src/utils/channelMappingUtils.js:62-76 | forward maps d to s and reverse maps s to d; the previous holder of s is evicted; the reverse index keeps exactly its other keys, and every other entry of both indexes keeps its value; the saved map is the new forward map |
| ChannelMapping.AddEvictsPreviousHolder | src/utils/channelMappingUtils.js:65-68 | every other Discord id mapped to s before the add is gone afterwards, and the rest keep their values |
| ChannelMapping.AddPreservesInjective | src/utils/channelMappingUtils.js:62-76 | if no two Discord channels shared a Stoat channel before the add, none do after it |
| ChannelMapping.AddChannelMappingInjective | src/utils/channelMappingUtils.js:62-76 | the same holds for the store operation, which loads the file first |
| ChannelMapping.Remove | src/utils/channelMappingUtils.js:84-96 | a mapped d loses its forward entry and its Stoat id's reverse entry, and the map is saved; an unmapped d changes nothing and saves nothing |
| ChannelMapping.RemovePreservesInverse | src/utils/channelMappingUtils.js:87-93 | removal keeps exactly inverse maps exactly inverse |
| ChannelMapping.Lookup | src/utils/channelMappingUtils.js:104-118 | the lookup returns the mapped id when it is present and non-empty, and null otherwise |
| ChannelMapping.AddThenLookup | src/utils/channelMappingUtils.js:71-72 | after an add, both lookups find the new pair |
| ChannelMapping.RemoveThenLookup | src/utils/channelMappingUtils.js:87-91 | after removing a mapped channel, both lookups return null |
| ChannelUtils.RestoreBotAlwaysIgnored | src/utils/channelUtils.js:14 | the Discord-Restore account is a bot on the Stoat side under every configuration |
| ChannelUtils.MirrorAfterAdd | src/utils/channelUtils.js:3-9 | after adding a pair, the Discord channel is mirrored on the Discord side and the Stoat channel on the Stoat side |
| ChannelUtils.MirrorAfterRemove | src/utils/channelUtils.js:3-9 | after removing a mapped channel from exactly inverse maps, neither it nor its Stoat partner is mirrored |
| ChannelUtils.MirrorLoadedStoat | src/utils/channelUtils.js:4-5 | with freshly loaded maps, a Stoat channel is mirrored iff some Discord channel maps to it |
| Webhook.SlugShape | webhookHandler.js:15 | the slug has no whitespace and no upper-case letter, and is no longer than the name |
| Webhook.SlugFixed | webhookHandler.js:15 | a name without whitespace or upper case is its own slug |
| Webhook.SlugIdempotent | webhookHandler.js:15 | slugging a slug changes nothing |
| Webhook.FindPrefixed | webhookHandler.js:8 | the result is null iff no webhook name starts with `stoat`, and otherwise is the first such webhook |
| Webhook.CreateOrGetWebhook | webhookHandler.js:3-28 | a failed listing yields null and one error line; a prefixed webhook is reused and nothing is created; with no prefixed webhook listed, a webhook named `stoat-` + slug with the fixed avatar is requested and, when created, returned, while a failed creation yields null and one error line |
| Webhook.CreatedNameCarriesPrefix | webhookHandler.js:16 | every name the bridge creates starts with `stoat` |
| Webhook.ReuseAfterCreate | webhookHandler.js:8-21 | once a webhook has been created, a later call that lists it reuses it and creates nothing |
| Webhook.AnyStoatNameReused | webhookHandler.js:4-12 | any webhook whose name merely starts with `stoat`, hyphen or not, is reused when listed first |
| Messages.AttachmentItems | messageHandler.js:47-48 | absent attachments give no items, a single object gives one item, and an array gives its items |
| MessageHandler.UploadAttachmentToStoat | messageHandler.js:14-39 | the result is an id iff the file exists, the upload responded, and its id is truthy; a missing file and a thrown error are logged |
| MessageHandler.CollectDownloads | messageHandler.js:46-61 | the download loop keeps the files whose download succeeded and logs one line per failure |
| MessageHandler.KeptFilesMembers | messageHandler.js:49-59 | a file is kept iff some listed attachment of that name downloaded that body |
| MessageHandler.KeptFilesAll | messageHandler.js:49-59 | when every download succeeds, every attachment is kept in order, with its body and name |
| MessageHandler.KeptFilesAppend | messageHandler.js:49-59 | the kept files of two lists in sequence are the kept files of each, in the same order |
| MessageHandler.StoatDisplayName | messageHandler.js:73 | the display name is the author's truthy username, and `Stoat User` otherwise |
| MessageHandler.StoatAvatar | messageHandler.js:74-76 | the avatar is the author's avatar URL when the author has an avatar, and the fixed image otherwise |
| MessageHandler.SendMessageToDiscord | messageHandler.js:41-88 | without a webhook nothing is posted and the result is null; otherwise the post carries the content, display name, avatar and kept files; the result is the sent id iff the send succeeded |
| MessageHandler.EditMessageInDiscord | messageHandler.js:90-125 | a webhook-posted target is edited through the webhook with name and avatar, any other target directly; the result is true iff no step failed; a missing webhook gives false and no edit |
| MessageHandler.EditAfterSend | messageHandler.js:90-124 | a message the bridge sent through a webhook, edited while the channel still lists that webhook, is edited through a webhook under the editor's name and avatar, with success iff the edit itself succeeds |
| MessageHandler.DeleteMessageInDiscord | messageHandler.js:127-140 | the Stoat message's record is dropped iff both the fetch and the delete succeed; otherwise the result is false and the record stays |
| MessageHandler.ProcessAttachment | messageHandler.js:148-168 | one attachment contributes its upload id iff it was written and the upload responded with a truthy id; its temp file is gone afterwards |
| MessageHandler.ProcessAttachments | messageHandler.js:147-169 | after the loop no attachment's temp file is left, every collected id is non-empty, and there are no more ids than attachments |
| MessageHandler.ProcessIds | messageHandler.js:147-169 | the collected ids are the reference list of truthy upload ids in attachment order, whatever files were on disk |
| MessageHandler.UploadedIdsMembers | messageHandler.js:156-159 | an id is collected iff some attachment's upload responded with it |
| MessageHandler.UploadedIdsAppend | messageHandler.js:148-159 | the ids of two attachment lists in sequence are the ids of each, in the same order |
| MessageHandler.DiscordDisplayName | messageHandler.js:176 | the masquerade name is the author's non-empty username, and `Unknown User` otherwise |
| MessageHandler.SendMessageToStoat | messageHandler.js:142-199 | the message is posted to the given Stoat channel; the payload carries the content, the collected ids, the name and the avatar; no temp file is left; the result is the response id, or null with a logged status line on failure |
| MessageHandler.EditMessageInStoat | messageHandler.js:201-227 | the message is patched with the content; true iff no HTTP error, else false with a logged status line |
| MessageHandler.DeleteMessageInStoat | messageHandler.js:229-245 | the message is deleted; true iff no HTTP error, else false with a logged status line |
| MessageHandler.HttpErrorStatus | messageHandler.js:196 | the error line names `Unknown` without a response status, and the status's decimal digits with one |
| DiscordEvents.MessageCreate | src/events/discord/messageCreate.js:5-18 | unmirrored channels and bot messages are ignored; otherwise the send goes to the mapped Stoat channel; only a truthy result is recorded, and no other record changes |
| DiscordEvents.MessageUpdate | src/events/discord/messageUpdate.js:5-17 | an eligible message with a recorded counterpart is edited in the mapped Stoat channel under that id; the tables never change |
| DiscordEvents.MessageDelete | src/events/discord/messageDelete.js:4-19 | a recorded message is deleted in Stoat; its record is dropped only on success, and no other record changes |
| DiscordEvents.OwnWebhookNotEchoed | src/events/discord/messageCreate.js:7 | a message posted through the bridge's own webhook is neither sent nor edited on Stoat |
| DiscordEvents.CreateThenUpdate | src/events/discord/messageUpdate.js:11-16 | after a recorded send, editing the message edits the recorded Stoat message |
| DiscordEvents.CreateThenDelete | src/events/discord/messageDelete.js:8-18 | after a recorded send, a successful delete forgets the record and a failed one keeps it |
| DiscordEvents.ForeignWebhookRelayed | src/utils/channelUtils.js:16-22 | in a mirrored channel, a message by anyone but the bridge that the bridge's application did not post, including a webhook message of another application, is sent to the mapped Stoat channel |
| DiscordEvents.CreateThenEditInStoat | src/events/discord/messageUpdate.js:10-16 | after a recorded send, the relayed edit makes the Stoat edit helper patch exactly the recorded Stoat message, with success iff no HTTP error |
| DiscordEvents.DeleteThroughStoatHelper | src/events/discord/messageDelete.js:11-18 | fed with the Stoat delete helper's result, the handler deletes exactly the recorded Stoat message and drops the record iff the request raised no HTTP error; every other record stays |
| DiscordEvents.DeleteIgnoresAuthor | src/events/discord/messageDelete.js:4-19 | the delete path does not depend on the author, the webhook or the application |
| DiscordEvents.HandlersKeepRecordsTruthy | src/events/discord/messageCreate.js:12-16 | no Discord handler records an empty Stoat id |
| StoatEvents.MessageCreate | src/events/stoat/messageCreate.js:7-39 | the mirror check comes first; a missing author then throws; bot messages are ignored; the mapped Discord channel is fetched; a missing or throwing fetch is logged and nothing is sent; a sent message is recorded |
| StoatEvents.MessageUpdate | src/events/stoat/messageUpdate.js:6-22 | only a truthy recorded counterpart in a channel mirrored under the old channel id is edited, with the old message's payload; a missing channel is logged; a throwing fetch propagates; the tables never change |
| StoatEvents.MessageDelete | src/events/stoat/messageDelete.js:7-29 | a truthy recorded counterpart is deleted through the Discord delete helper; the record is dropped only when that helper's fetch and delete succeed; errors are logged, not thrown |
| StoatEvents.OtherAuthorsRelayed | src/events/stoat/messageCreate.js:29-39 | in a mirrored channel, a message by any author other than the bridge's Stoat account and the Discord-Restore bot fetches the mapped Discord channel, is sent there when it is found, and is recorded when sent |
| StoatEvents.OwnAccountNotEchoed | src/events/stoat/messageCreate.js:31 | a message by the bridge's own Stoat account is not relayed |
| StoatEvents.CreateThenUpdate | src/events/stoat/messageUpdate.js:10-21 | after a recorded send, editing the message edits the recorded Discord message |
| StoatEvents.CreateThenDelete | src/events/stoat/messageDelete.js:11-25 | after a recorded send, deleting the message deletes the recorded Discord message; the record is forgotten iff the Discord fetch and delete succeed |
| StoatEvents.UpdateIgnoresAuthor | src/events/stoat/messageUpdate.js:6-11 | whether an edit is relayed does not depend on either message's author |

## Left out

- All I/O is replaced by outcome parameters. This covers axios and fetch, FormData, buffers, the temp files, the YAML text format, the logger, and both chat SDKs. The URLs and tokens passed to the helpers are dropped with it.
- The configuration is an explicit parameter of all six handlers: both channel maps and both bot ids. Some handlers in the source read a module-level config instead.
- The Discord create and update handlers and the Stoat create and delete handlers import their predicates from `bot.js`, which is not part of this model. The model uses the predicates of `src/utils/channelUtils.js` instead. `bot.js` decides Discord bot messages by `author.bot`, not by webhook ownership.
- The formatter that `messageHandler.js` actually imports is the superseded root `messageFormatter.js`, which is not part of this model. The helpers take the formatted content as a parameter.
- The `createOrGetWebhook` in `messageHandler.js` (lines 248-273) duplicates `webhookHandler.js`. Both are modelled once, by `Webhook.CreateOrGetWebhook`.
- Async interleaving between handlers is not modelled. Each handler is one atomic transition.
- `\s` and `toLowerCase` are modelled on ASCII only.
- `$` replacement patterns and regular-expression metacharacters in user names, role names and ids are assumed absent. Ids are inserted literally.
- JavaScript prototype keys such as `__proto__` are not modelled in the plain objects used as maps, and neither is object key ordering.
- Formatter.ListedUserToken: like Formatter.ListedUserNickToken, it assumes distinct all-digit user ids and usernames without `<`. A username containing `<` could form a new token for a later user's replacement.
- Formatter.ListedRoleToken: it assumes distinct all-digit role ids and role names without `<`. A role name containing `<` could form a new token for a later role's replacement.
- Formatter.FormattersEscapeEveryone: the transcoder is not idempotent. A second pass escapes an already escaped `@everyone` again, so no idempotence is claimed.
- ChannelMapping.Load: when the mapping file is missing and cannot be created, `ensureChannelMappingFileExists` throws outside the `try` (src/utils/channelMappingUtils.js:26), so load, add, remove and both getters reject. This rejection is not modelled; an unreadable file yields empty maps.
- ChannelMapping.Add, ChannelMapping.Remove: a failed `saveChannelMappings` (src/utils/channelMappingUtils.js:74 and 92) makes the operation reject after the in-memory maps changed. The model always saves successfully.
- ChannelMapping.SaveThenLoad: `yaml.dump` writes the keys in the object's insertion order; the model writes them in an unspecified order, which the loaded forward index does not depend on.
- ChannelMapping.Add: the reverse index is not always the exact inverse after remapping an already mapped Discord id, because the old Stoat id's reverse entry stays. Only forward injectivity is claimed.
- StoatEvents.MessageCreate: `sent` is the id of the message the Discord send helper returned. The composition with `MessageHandler.SendMessageToDiscord` is not stated as one function.
- DiscordEvents.MessageCreate: `sent` is the value the Stoat send helper returned. The composition with `MessageHandler.SendMessageToStoat` is not stated as one function.
- MessageHandler.ProcessAttachment: a failed `unlink` during cleanup is not modelled. The temp file is taken to be gone after each attachment.
