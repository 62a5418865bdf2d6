/**
 * The send, edit and delete helpers that talk to the two platforms, and the
 * Stoat-to-Discord message-id table they share with the event handlers.
 * Every network, file-system and SDK call is replaced by a parameter that
 * says how it settled; each helper returns what it asked for, what it
 * returns to its caller, and the lines it logged.
 */
module MessageHandler {
  import opened Wrappers
  import opened Text
  import opened Messages
  import Webhook

  const StoatFallbackName := "Stoat User"
  const DiscordFallbackName := "Unknown User"

  /** Settlement of the attachment upload POST: the response body's `id`, or the thrown error. */
  datatype UploadOutcome = UploadResponded(id: Option<string>) | UploadThrew(error: string)

  /** A value together with the lines logged while computing it. */
  datatype Logged<T> = Logged(value: T, log: seq<string>)

  /** An HTTP failure: `error.response?.status` (0 when there was no response) and `error.message`. */
  datatype HttpError = HttpError(status: nat, message: string)

  /** `${error.response?.status || 'Unknown'} - ${error.message}`. */
  function HttpErrorText(e: HttpError): string {
    (if e.status == 0 then "Unknown" else DecimalString(e.status)) + " - " + e.message
  }

  // ---------------------------------------------------------------------
  // uploadAttachmentToStoat

  /**
   * Uploads a local file to the Stoat file server: null when the file is
   * missing, when the upload throws, or when the response carries no truthy
   * `id`; otherwise that id.
   */
  function UploadAttachmentToStoat(filePath: string, fileExists: bool, upload: UploadOutcome): (r: Logged<Option<string>>)
    ensures r.value.Some? <==> fileExists && upload.UploadResponded? && Truthy(upload.id)
    ensures r.value.Some? ==> r.value == upload.id && r.log == []
    ensures !fileExists ==> r.log == ["[!] Attachment not found locally: " + filePath]
    ensures fileExists && upload.UploadThrew? ==> r.log == ["[!] Error uploading file: " + upload.error]
  {
    if !fileExists then Logged(None, ["[!] Attachment not found locally: " + filePath])
    else
      match upload
      case UploadThrew(e) => Logged(None, ["[!] Error uploading file: " + e])
      case UploadResponded(id) => Logged(if Truthy(id) then id else None, [])
  }

  // ---------------------------------------------------------------------
  // sendMessageToDiscord

  /** A downloaded Stoat attachment: the body fetched from the file server, posted under the attachment's name. */
  datatype AttachmentFile = AttachmentFile(body: string, name: string)

  /**
   * The files kept from the first `n` attachments: those whose download did
   * not throw, in attachment order. `download(a)` is how fetching the file
   * server's URL for `a` and reading its body settled.
   */
  function KeptFiles(items: seq<StoatAttachment>, download: StoatAttachment -> Attempt<string>, n: nat): seq<AttachmentFile>
    requires n <= |items|
    decreases n
  {
    if n == 0 then []
    else KeptFiles(items, download, n - 1) + (match download(items[n - 1])
                                         case Done(body) => [AttachmentFile(body, items[n - 1].name)]
                                         case Threw(_) => [])
  }

  /** The lines logged for the failed downloads among the first `n` attachments. */
  function DownloadLog(items: seq<StoatAttachment>, download: StoatAttachment -> Attempt<string>, n: nat): seq<string>
    requires n <= |items|
    decreases n
  {
    if n == 0 then []
    else
      DownloadLog(items, download, n - 1)
        + match download(items[n - 1])
          case Done(_) => []
          case Threw(e) => ["Error downloading attachment " + items[n - 1].name + ": " + e]
  }

  /** The download loop of `sendMessageToDiscord`: failed items are logged and dropped. */
  method CollectDownloads(items: seq<StoatAttachment>, download: StoatAttachment -> Attempt<string>)
    returns (files: seq<AttachmentFile>, log: seq<string>)
    ensures files == KeptFiles(items, download, |items|)
    ensures log == DownloadLog(items, download, |items|)
    ensures |files| + |log| == |items|
  {
    files, log := [], [];
    var i := 0;
    while i < |items|
      invariant 0 <= i <= |items|
      invariant files == KeptFiles(items, download, i)
      invariant log == DownloadLog(items, download, i)
      invariant |files| + |log| == i
    {
      var a := items[i];
      var fetched := download(a);
      if fetched.Done? {
        files := files + [AttachmentFile(fetched.value, a.name)];
      } else {
        log := log + ["Error downloading attachment " + a.name + ": " + fetched.error];
      }
      i := i + 1;
    }
  }

  /** A file is kept iff its attachment is among the items and its download succeeded. */
  lemma {:induction false} KeptFilesMembers(items: seq<StoatAttachment>, download: StoatAttachment -> Attempt<string>, n: nat, f: AttachmentFile)
    requires n <= |items|
    ensures f in KeptFiles(items, download, n)
        <==> exists i | 0 <= i < n :: download(items[i]) == Done(f.body) && f.name == items[i].name
    decreases n
  {
    if n > 0 {
      KeptFilesMembers(items, download, n - 1, f);
    }
  }

  /** When every download succeeds, every attachment is kept, in order. */
  lemma {:induction false} KeptFilesAll(items: seq<StoatAttachment>, download: StoatAttachment -> Attempt<string>, n: nat)
    requires n <= |items|
    requires forall i | 0 <= i < |items| :: download(items[i]).Done?
    ensures |KeptFiles(items, download, n)| == n
    ensures forall i | 0 <= i < n :: KeptFiles(items, download, n)[i] == AttachmentFile(download(items[i]).value, items[i].name)
    decreases n
  {
    if n > 0 {
      KeptFilesAll(items, download, n - 1);
    }
  }

  /** Order is kept: the files of a concatenation are the files of each part, concatenated. */
  lemma {:induction false} KeptFilesAppend(a: seq<StoatAttachment>, b: seq<StoatAttachment>, download: StoatAttachment -> Attempt<string>, n: nat)
    requires n <= |b|
    ensures KeptFiles(a + b, download, |a| + n) == KeptFiles(a, download, |a|) + KeptFiles(b, download, n)
    decreases n
  {
    if n == 0 {
      KeptFilesPrefix(a, b, download, |a|);
    } else {
      KeptFilesAppend(a, b, download, n - 1);
      assert (a + b)[|a| + n - 1] == b[n - 1];
    }
  }

  /** The files of a prefix do not depend on what follows it. */
  lemma {:induction false} KeptFilesPrefix(a: seq<StoatAttachment>, b: seq<StoatAttachment>, download: StoatAttachment -> Attempt<string>, n: nat)
    requires n <= |a|
    ensures KeptFiles(a + b, download, n) == KeptFiles(a, download, n)
    decreases n
  {
    if n > 0 {
      KeptFilesPrefix(a, b, download, n - 1);
      assert (a + b)[n - 1] == a[n - 1];
    }
  }

  /** `message.author?.username || 'Stoat User'`. */
  function StoatDisplayName(author: Option<StoatAuthor>): (name: string)
    ensures name != ""
    ensures author.Some? && Truthy(author.value.username) ==> name == author.value.username.value
  {
    if author.Some? && Truthy(author.value.username) then author.value.username.value else StoatFallbackName
  }

  /** The author's avatar URL when the author has an avatar, otherwise the fixed default image. */
  function StoatAvatar(author: Option<StoatAuthor>): (url: string)
    ensures author.Some? && author.value.hasAvatar ==> url == author.value.avatarURL
    ensures !(author.Some? && author.value.hasAvatar) ==> url == Webhook.DefaultAvatar
  {
    if author.Some? && author.value.hasAvatar then author.value.avatarURL else Webhook.DefaultAvatar
  }

  /** The options of `webhook.send`. */
  datatype WebhookPost = WebhookPost(content: string, username: string, avatarURL: string, files: seq<AttachmentFile>)

  /** What `sendMessageToDiscord` did: the sent message's id (null on failure), the post it made, and its log. */
  datatype DiscordSend = DiscordSend(
    sent: Option<string>,
    acquired: Webhook.Acquired,
    post: Option<WebhookPost>,
    log: seq<string>)

  /**
   * Downloads the attachments, obtains the channel's webhook, and posts the
   * formatted content under the author's name and avatar. `content` is the
   * formatted text; `send` is how `webhook.send` settled, with the id of the
   * message it created.
   */
  function SendMessageToDiscord(
    message: StoatMessage, content: string, download: StoatAttachment -> Attempt<string>,
    channelName: string, listing: Webhook.Listing, creation: Webhook.Creation, send: Attempt<string>): (r: DiscordSend)
    ensures r.acquired == Webhook.CreateOrGetWebhook(channelName, listing, creation)
    ensures r.post.Some? <==> r.acquired.webhook.Some?
    ensures r.sent.Some? <==> r.post.Some? && send.Done?
    ensures r.sent.Some? ==> r.sent.value == send.value
    ensures r.post.Some? ==>
              var items := AttachmentItems(message.attachments);
              r.post.value == WebhookPost(content, StoatDisplayName(message.author), StoatAvatar(message.author),
                                          KeptFiles(items, download, |items|))
    ensures r.acquired.webhook.None? ==> |r.log| > 0 && r.log[|r.log| - 1] == "Failed to get or create webhook"
  {
    var items := AttachmentItems(message.attachments);
    var files := KeptFiles(items, download, |items|);
    var log := DownloadLog(items, download, |items|);
    var acquired := Webhook.CreateOrGetWebhook(channelName, listing, creation);
    if acquired.webhook.None? then
      DiscordSend(None, acquired, None, log + acquired.log + ["Failed to get or create webhook"])
    else
      var post := WebhookPost(content, StoatDisplayName(message.author), StoatAvatar(message.author), files);
      match send
      case Done(id) => DiscordSend(Some(id), acquired, Some(post), log + acquired.log)
      case Threw(e) =>
        DiscordSend(None, acquired, Some(post), log + acquired.log + ["Failed to send message via webhook to Discord: " + e])
  }

  // ---------------------------------------------------------------------
  // editMessageInDiscord

  /** The edit requested: through the webhook (with name and avatar) or on the message itself. */
  datatype DiscordEdit =
    | WebhookEdit(messageId: string, content: string, username: string, avatarURL: string)
    | DirectEdit(content: string)

  datatype EditResult = EditResult(ok: bool, edit: Option<DiscordEdit>, log: seq<string>)

  /**
   * Fetches the target message; a webhook-posted message is edited through
   * the channel's webhook, any other directly. `fetched` is the fetched
   * message's `webhookId`; `editError` is the error the edit threw, if any.
   * True iff no step failed.
   */
  function EditMessageInDiscord(
    channelName: string, discordMessageId: string, message: StoatMessage, content: string,
    fetched: Attempt<Option<string>>, listing: Webhook.Listing, creation: Webhook.Creation,
    editError: Option<string>): (r: EditResult)
    ensures r.ok <==> && fetched.Done? && editError.None?
                      && (Truthy(fetched.value) ==> Webhook.CreateOrGetWebhook(channelName, listing, creation).webhook.Some?)
    ensures r.edit.Some? <==> && fetched.Done?
                              && (Truthy(fetched.value) ==> Webhook.CreateOrGetWebhook(channelName, listing, creation).webhook.Some?)
    ensures r.edit.Some? ==> (r.edit.value.WebhookEdit? <==> Truthy(fetched.value))
    ensures r.edit.Some? && r.edit.value.WebhookEdit? ==>
              r.edit.value == WebhookEdit(discordMessageId, content, StoatDisplayName(message.author), StoatAvatar(message.author))
    ensures r.edit.Some? && r.edit.value.DirectEdit? ==> r.edit.value == DirectEdit(content)
    ensures !r.ok ==> |r.log| > 0
  {
    match fetched
    case Threw(e) => EditResult(false, None, ["Failed to update message in Discord: " + e])
    case Done(webhookId) =>
      if Truthy(webhookId) then
        var acquired := Webhook.CreateOrGetWebhook(channelName, listing, creation);
        if acquired.webhook.None? then
          EditResult(false, None, acquired.log + ["Failed to get webhook for editing message"])
        else
          var edit := WebhookEdit(discordMessageId, content, StoatDisplayName(message.author), StoatAvatar(message.author));
          match editError
          case None => EditResult(true, Some(edit), acquired.log)
          case Some(e) => EditResult(false, Some(edit), acquired.log + ["Failed to update message in Discord: " + e])
      else
        match editError
        case None => EditResult(true, Some(DirectEdit(content)), [])
        case Some(e) => EditResult(false, Some(DirectEdit(content)), ["Failed to update message in Discord: " + e])
  }

  /**
   * A message the bridge sent went out through a channel webhook, so the
   * fetched copy carries a truthy `webhookId`: a later edit of it, while the
   * channel still lists that webhook, goes through a webhook under the
   * editor's name and avatar, and succeeds iff the edit itself does.
   */
  lemma EditAfterSend(
    message: StoatMessage, content: string, download: StoatAttachment -> Attempt<string>,
    channelName: string, listing: Webhook.Listing, creation: Webhook.Creation, send: Attempt<string>,
    webhookId: string, edited: StoatMessage, content': string,
    listing': Webhook.Listing, creation': Webhook.Creation, editError: Option<string>)
    requires SendMessageToDiscord(message, content, download, channelName, listing, creation, send).sent.Some?
    requires webhookId != ""
    requires listing'.Listed?
    requires SendMessageToDiscord(message, content, download, channelName, listing, creation, send).acquired.webhook.value
             in listing'.hooks
    ensures var sent := SendMessageToDiscord(message, content, download, channelName, listing, creation, send).sent.value;
            var e := EditMessageInDiscord(channelName, sent, edited, content', Done(Some(webhookId)), listing', creation', editError);
            && e.edit == Some(WebhookEdit(sent, content', StoatDisplayName(edited.author), StoatAvatar(edited.author)))
            && (e.ok <==> editError.None?)
  {
    var w := SendMessageToDiscord(message, content, download, channelName, listing, creation, send).acquired.webhook.value;
    var i :| 0 <= i < |listing'.hooks| && listing'.hooks[i] == w;
    assert StartsWith(listing'.hooks[i].name, Webhook.NamePrefix);
  }

  // ---------------------------------------------------------------------
  // deleteMessageInDiscord

  datatype DeleteResult = DeleteResult(ok: bool, s2d: map<string, string>, log: seq<string>)

  /**
   * Fetches and deletes the Discord message; only when both succeed is the
   * Stoat message's entry dropped from the Stoat-to-Discord table.
   */
  function DeleteMessageInDiscord(
    s2d: map<string, string>, discordMessageId: string, stoatMessageId: string,
    fetchError: Option<string>, deleteError: Option<string>): (r: DeleteResult)
    ensures r.ok <==> fetchError.None? && deleteError.None?
    ensures r.ok ==> r.s2d == s2d - {stoatMessageId} && r.log == []
    ensures !r.ok ==> r.s2d == s2d && |r.log| == 1
  {
    match (fetchError, deleteError)
    case (Some(e), _) => DeleteResult(false, s2d, ["Failed to delete message in Discord: " + e])
    case (None, Some(e)) => DeleteResult(false, s2d, ["Failed to delete message in Discord: " + e])
    case (None, None) => DeleteResult(true, s2d - {stoatMessageId}, [])
  }

  // ---------------------------------------------------------------------
  // sendMessageToStoat

  /** How the handling of one Discord attachment settled. */
  datatype AttachmentOutcome =
    | DownloadFailed(error: string)
    | WriteFailed(error: string)
    | Written(upload: UploadOutcome)

  /** The temporary file an attachment is downloaded to. */
  function TempPath(a: DiscordAttachment): string {
    "temp_" + a.id + "_" + a.name
  }

  function TempPaths(items: seq<DiscordAttachment>): set<string> {
    set i | 0 <= i < |items| :: TempPath(items[i])
  }

  /** The uploaded ids collected, the files left on disk, and the log. */
  datatype Processed = Processed(ids: seq<string>, files: set<string>, log: seq<string>)

  /**
   * Handles one attachment: download to its temp file, upload it, keep a
   * truthy upload id, delete the temp file. On a failed download or write
   * the error is logged and a temp file left at that path is deleted.
   */
  function ProcessAttachment(a: DiscordAttachment, outcome: AttachmentOutcome, files: set<string>): (r: Processed)
    ensures r.files == files - {TempPath(a)}
    ensures |r.ids| <= 1
    ensures |r.ids| == 1 <==> outcome.Written? && outcome.upload.UploadResponded? && Truthy(outcome.upload.id)
    ensures |r.ids| == 1 ==> r.ids[0] == outcome.upload.id.value
  {
    var path := TempPath(a);
    match outcome
    case Written(upload) =>
      var uploaded := UploadAttachmentToStoat(path, true, upload);
      Processed(if uploaded.value.Some? then [uploaded.value.value] else [], files + {path} - {path}, uploaded.log)
    case DownloadFailed(e) =>
      Processed([], files - {path}, ["[!] Error uploading file: " + e + " (File): " + a.name])
    case WriteFailed(e) =>
      Processed([], files - {path}, ["[!] Error uploading file: " + e + " (File): " + a.name])
  }

  /** The paths of a non-empty list are its head's path and those of its tail. */
  lemma TempPathsCons(items: seq<DiscordAttachment>)
    requires |items| > 0
    ensures TempPaths(items) == {TempPath(items[0])} + TempPaths(items[1..])
  {
    forall p | p in TempPaths(items) ensures p in {TempPath(items[0])} + TempPaths(items[1..]) {
      var i :| 0 <= i < |items| && p == TempPath(items[i]);
      if i > 0 {
        assert p == TempPath(items[1..][i - 1]);
      }
    }
    forall p | p in TempPaths(items[1..]) ensures p in TempPaths(items) {
      var i :| 0 <= i < |items[1..]| && p == TempPath(items[1..][i]);
      assert p == TempPath(items[i + 1]);
    }
  }

  /** The attachment loop of `sendMessageToStoat`, over the attachments in collection order. */
  function ProcessAttachments(items: seq<DiscordAttachment>, outcome: DiscordAttachment -> AttachmentOutcome, files: set<string>): (r: Processed)
    ensures r.files == files - TempPaths(items)
    ensures |r.ids| <= |items|
    ensures forall k | 0 <= k < |r.ids| :: r.ids[k] != ""
    decreases |items|
  {
    if |items| == 0 then Processed([], files, [])
    else
      var first := ProcessAttachment(items[0], outcome(items[0]), files);
      var rest := ProcessAttachments(items[1..], outcome, first.files);
      TempPathsCons(items);
      Processed(first.ids + rest.ids, rest.files, first.log + rest.log)
  }

  /** The id an attachment contributes: a truthy id from an upload that responded. */
  predicate UploadedAs(o: AttachmentOutcome, id: string) {
    o.Written? && o.upload == UploadResponded(Some(id)) && id != ""
  }

  /**
   * Reference definition of the collected ids: for each attachment in turn,
   * the id its upload responded with, when truthy. Independent of the file
   * system.
   */
  function UploadedIds(items: seq<DiscordAttachment>, outcome: DiscordAttachment -> AttachmentOutcome): seq<string>
    decreases |items|
  {
    if |items| == 0 then []
    else
      var o := outcome(items[0]);
      (if o.Written? && o.upload.UploadResponded? && Truthy(o.upload.id) then [o.upload.id.value] else [])
        + UploadedIds(items[1..], outcome)
  }

  /** The ids the loop collects are the reference ids, whatever files were on disk. */
  lemma {:induction false} ProcessIds(items: seq<DiscordAttachment>, outcome: DiscordAttachment -> AttachmentOutcome, files: set<string>)
    ensures ProcessAttachments(items, outcome, files).ids == UploadedIds(items, outcome)
    decreases |items|
  {
    if |items| > 0 {
      var first := ProcessAttachment(items[0], outcome(items[0]), files);
      ProcessIds(items[1..], outcome, first.files);
    }
  }

  /** An id is collected iff some attachment's upload responded with it. */
  lemma {:induction false} UploadedIdsMembers(items: seq<DiscordAttachment>, outcome: DiscordAttachment -> AttachmentOutcome, id: string)
    ensures id in UploadedIds(items, outcome) <==> exists i | 0 <= i < |items| :: UploadedAs(outcome(items[i]), id)
    decreases |items|
  {
    if |items| > 0 {
      UploadedIdsMembers(items[1..], outcome, id);
      if exists i | 0 <= i < |items| :: UploadedAs(outcome(items[i]), id) {
        var i :| 0 <= i < |items| && UploadedAs(outcome(items[i]), id);
        if i > 0 {
          assert UploadedAs(outcome(items[1..][i - 1]), id);
        }
      }
      if exists i | 0 <= i < |items[1..]| :: UploadedAs(outcome(items[1..][i]), id) {
        var i :| 0 <= i < |items[1..]| && UploadedAs(outcome(items[1..][i]), id);
        assert UploadedAs(outcome(items[i + 1]), id);
      }
    }
  }

  /** Attachment order is kept: the ids of a concatenation are the ids of each part, concatenated. */
  lemma {:induction false} UploadedIdsAppend(a: seq<DiscordAttachment>, b: seq<DiscordAttachment>, outcome: DiscordAttachment -> AttachmentOutcome)
    ensures UploadedIds(a + b, outcome) == UploadedIds(a, outcome) + UploadedIds(b, outcome)
    decreases |a|
  {
    if |a| > 0 {
      assert (a + b)[0] == a[0] && (a + b)[1..] == a[1..] + b;
      UploadedIdsAppend(a[1..], b, outcome);
    } else {
      assert a + b == b;
    }
  }

  /** The payload posted to Stoat: content, uploaded attachment ids, and the masquerade. */
  datatype StoatPayload = StoatPayload(content: string, attachments: seq<string>, name: string, avatar: Option<string>)

  /** Settlement of the message POST: `response.data?._id`, or the HTTP failure. */
  datatype PostOutcome = Posted(id: Option<string>) | PostFailed(error: HttpError)

  /** What `sendMessageToStoat` did: the message id (null on failure), the POST it made, and what it left behind. */
  datatype StoatSend = StoatSend(id: Option<string>, request: StoatRequest, payload: StoatPayload, files: set<string>, log: seq<string>)

  /** `message.author?.username || 'Unknown User'`. */
  function DiscordDisplayName(author: DiscordAuthor): (name: string)
    ensures name != ""
    ensures author.username != "" ==> name == author.username
  {
    if author.username != "" then author.username else DiscordFallbackName
  }

  /**
   * Relays the attachments, then posts the formatted content with the
   * masquerade to the messages of `stoatChannelId`. `post` is how the POST settled, with `response.data?._id`.
   * The result is that id, or null on failure; no temp file is left behind.
   */
  function SendMessageToStoat(
    message: DiscordMessage, stoatChannelId: string, content: string, outcome: DiscordAttachment -> AttachmentOutcome,
    files: set<string>, post: PostOutcome): (r: StoatSend)
    ensures r.request == PostMessage(stoatChannelId)
    ensures r.files == files - TempPaths(message.attachments)
    ensures forall p | p in TempPaths(message.attachments) :: p !in r.files
    ensures r.payload.attachments == UploadedIds(message.attachments, outcome)
    ensures r.payload.name == DiscordDisplayName(message.author) && r.payload.avatar == message.author.avatarURL
    ensures r.payload.content == content
    ensures post.PostFailed? ==> r.id.None? && |r.log| > 0 && r.log[|r.log| - 1] == "Failed to send message: " + HttpErrorText(post.error)
    ensures post.Posted? ==> r.id == post.id
  {
    var processed := ProcessAttachments(message.attachments, outcome, files);
    ProcessIds(message.attachments, outcome, files);
    var payload := StoatPayload(content, processed.ids, DiscordDisplayName(message.author), message.author.avatarURL);
    match post
    case Posted(id) => StoatSend(id, PostMessage(stoatChannelId), payload, processed.files, processed.log)
    case PostFailed(e) => StoatSend(None, PostMessage(stoatChannelId), payload, processed.files, processed.log + ["Failed to send message: " + HttpErrorText(e)])
  }

  // ---------------------------------------------------------------------
  // editMessageInStoat / deleteMessageInStoat

  /** A request to the Stoat API: a new message in a channel, or one message of a channel. */
  datatype StoatRequest =
    | PostMessage(channelId: string)
    | PatchMessage(channelId: string, messageId: string, content: string)
    | DeleteMessage(channelId: string, messageId: string)

  datatype StoatCall = StoatCall(ok: bool, request: StoatRequest, log: seq<string>)

  /** PATCHes the message with the formatted content; true on success, false (logged) on an HTTP error. */
  function EditMessageInStoat(stoatChannelId: string, stoatMessageId: string, content: string, error: Option<HttpError>): (r: StoatCall)
    ensures r.request == PatchMessage(stoatChannelId, stoatMessageId, content)
    ensures r.ok <==> error.None?
    ensures r.ok ==> r.log == []
    ensures !r.ok ==> r.log == ["Failed to edit message: " + HttpErrorText(error.value)]
  {
    match error
    case None => StoatCall(true, PatchMessage(stoatChannelId, stoatMessageId, content), [])
    case Some(e) => StoatCall(false, PatchMessage(stoatChannelId, stoatMessageId, content), ["Failed to edit message: " + HttpErrorText(e)])
  }

  /** DELETEs the message; true on success, false (logged) on an HTTP error. */
  function DeleteMessageInStoat(stoatChannelId: string, stoatMessageId: string, error: Option<HttpError>): (r: StoatCall)
    ensures r.request == DeleteMessage(stoatChannelId, stoatMessageId)
    ensures r.ok <==> error.None?
    ensures r.ok ==> r.log == []
    ensures !r.ok ==> r.log == ["Failed to delete message: " + HttpErrorText(error.value)]
  {
    match error
    case None => StoatCall(true, DeleteMessage(stoatChannelId, stoatMessageId), [])
    case Some(e) => StoatCall(false, DeleteMessage(stoatChannelId, stoatMessageId), ["Failed to delete message: " + HttpErrorText(e)])
  }

  /** The error text names the HTTP status when there was a response, and `Unknown` otherwise. */
  lemma HttpErrorStatus(e: HttpError)
    ensures e.status == 0 ==> HttpErrorText(e) == "Unknown - " + e.message
    ensures e.status > 0 ==> DecimalValue(HttpErrorText(e)[..|HttpErrorText(e)| - |e.message| - 3]) == e.status
  {
    if e.status > 0 {
      var d := DecimalString(e.status);
      assert HttpErrorText(e)[..|HttpErrorText(e)| - |e.message| - 3] == d;
      DecimalRoundTrip(e.status);
    }
  }
}
