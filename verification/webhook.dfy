/**
 * Webhook acquisition for a Discord channel: reuse the first webhook whose
 * name carries the bridge's prefix, otherwise create one named after the
 * channel.
 */
module Webhook {
  import opened Wrappers
  import opened Text

  const NamePrefix := "stoat"

  /** The avatar every webhook the bridge creates is given. */
  const DefaultAvatar := "https://i.imgur.com/ykjd3JO.jpeg"

  datatype Webhook = Webhook(id: string, name: string)

  /** Outcome of `fetchWebhooks()`: the channel's webhooks in order, or the error it threw. */
  datatype Listing = Listed(hooks: seq<Webhook>) | ListFailed(error: string)

  /** Outcome of `createWebhook(...)`: the new webhook's id, or the error it threw. */
  datatype Creation = CreatedWithId(id: string) | CreateFailed(error: string)

  /** The options passed to `createWebhook`. */
  datatype CreateRequest = CreateRequest(name: string, avatar: string)

  /** The webhook obtained (null on failure), the creation requested if any, and the lines logged. */
  datatype Acquired = Acquired(webhook: Option<Webhook>, request: Option<CreateRequest>, log: seq<string>)

  // ---------------------------------------------------------------------
  // The channel-name slug: replace(/\s+/g, '-').toLowerCase()

  /** `\s`, restricted to ASCII: space, tab, line feed, vertical tab, form feed, carriage return. */
  predicate IsSpace(c: char) {
    c == ' ' || '\t' <= c <= '\r'
  }

  predicate IsUpper(c: char) {
    'A' <= c <= 'Z'
  }

  /** ASCII `toLowerCase` of one character. */
  function ToLower(c: char): (r: char)
    ensures !IsUpper(r)
    ensures !IsUpper(c) ==> r == c
    ensures IsSpace(r) <==> IsSpace(c)
  {
    if IsUpper(c) then (c as int + 32) as char else c
  }

  /** Drops the run of whitespace at the start of `s`. */
  function SkipSpaces(s: string): (r: string)
    ensures |r| <= |s| && r == s[|s| - |r|..]
    ensures |s| > 0 && IsSpace(s[0]) ==> |r| < |s|
    ensures |r| > 0 ==> !IsSpace(r[0])
    decreases |s|
  {
    if |s| > 0 && IsSpace(s[0]) then SkipSpaces(s[1..]) else s
  }

  /** Each maximal whitespace run becomes one `-`; every ASCII letter is lowercased. */
  function Slug(s: string): string
    decreases |s|
  {
    if |s| == 0 then ""
    else if IsSpace(s[0]) then "-" + Slug(SkipSpaces(s))
    else [ToLower(s[0])] + Slug(s[1..])
  }

  /** The name of a created webhook: `stoat-` and the channel slug. */
  function WebhookName(channelName: string): string {
    NamePrefix + "-" + Slug(channelName)
  }

  /** A slug contains neither whitespace nor upper-case letters, and is no longer than its source. */
  lemma {:induction false} SlugShape(s: string)
    ensures forall i | 0 <= i < |Slug(s)| :: !IsSpace(Slug(s)[i]) && !IsUpper(Slug(s)[i])
    ensures |Slug(s)| <= |s|
    decreases |s|
  {
    if |s| == 0 {
    } else if IsSpace(s[0]) {
      SlugShape(SkipSpaces(s));
    } else {
      SlugShape(s[1..]);
    }
  }

  /** Text with no whitespace and no upper-case letter is its own slug. */
  lemma {:induction false} SlugFixed(s: string)
    requires forall i | 0 <= i < |s| :: !IsSpace(s[i]) && !IsUpper(s[i])
    ensures Slug(s) == s
    decreases |s|
  {
    if |s| > 0 {
      SlugFixed(s[1..]);
      assert [s[0]] + s[1..] == s;
    }
  }

  /** Slugging is idempotent: a webhook name derived twice is the same name. */
  lemma SlugIdempotent(s: string)
    ensures Slug(Slug(s)) == Slug(s)
  {
    SlugShape(s);
    SlugFixed(Slug(s));
  }

  // ---------------------------------------------------------------------
  // createOrGetWebhook

  /** `webhooks.find(wh => wh.name.startsWith('stoat'))`. */
  function FindPrefixed(hooks: seq<Webhook>): (r: Option<Webhook>)
    ensures r.None? <==> forall i | 0 <= i < |hooks| :: !StartsWith(hooks[i].name, NamePrefix)
    ensures r.Some? ==> exists i | 0 <= i < |hooks| ::
              && hooks[i] == r.value
              && StartsWith(hooks[i].name, NamePrefix)
              && forall j | 0 <= j < i :: !StartsWith(hooks[j].name, NamePrefix)
    decreases |hooks|
  {
    if |hooks| == 0 then None
    else if StartsWith(hooks[0].name, NamePrefix) then Some(hooks[0])
    else
      var r := FindPrefixed(hooks[1..]);
      if r.Some? then
        ghost var i :| 0 <= i < |hooks[1..]| && hooks[1..][i] == r.value
                       && StartsWith(hooks[1..][i].name, NamePrefix)
                       && forall j | 0 <= j < i :: !StartsWith(hooks[1..][j].name, NamePrefix);
        assert hooks[i + 1] == r.value;
        r
      else r
  }

  /**
   * Lists the channel's webhooks and returns the first prefixed one;
   * otherwise asks for a new one, named after the channel, with the fixed
   * avatar. A failure of either call yields null and one logged line.
   */
  function CreateOrGetWebhook(channelName: string, listing: Listing, creation: Creation): (r: Acquired)
    ensures listing.ListFailed? ==> r == Acquired(None, None, ["Failed to create/get webhook: " + listing.error])
    ensures listing.Listed? && FindPrefixed(listing.hooks).Some? ==> r == Acquired(FindPrefixed(listing.hooks), None, [])
    ensures r.request.Some? ==> r.request.value == CreateRequest(WebhookName(channelName), DefaultAvatar)
    ensures r.webhook.Some? ==> StartsWith(r.webhook.value.name, NamePrefix)
    ensures r.webhook.None? <==> |r.log| == 1
    ensures listing.Listed? && FindPrefixed(listing.hooks).None? ==>
              && r.request == Some(CreateRequest(WebhookName(channelName), DefaultAvatar))
              && (creation.CreatedWithId? ==>
                    r.webhook == Some(Webhook(creation.id, WebhookName(channelName))) && r.log == [])
              && (creation.CreateFailed? ==>
                    r.webhook.None? && r.log == ["Failed to create/get webhook: " + creation.error])
  {
    match listing
    case ListFailed(e) => Acquired(None, None, ["Failed to create/get webhook: " + e])
    case Listed(hooks) =>
      var found := FindPrefixed(hooks);
      if found.Some? then Acquired(found, None, [])
      else
        var request := CreateRequest(WebhookName(channelName), DefaultAvatar);
        match creation
        case CreatedWithId(id) => Acquired(Some(Webhook(id, request.name)), Some(request), [])
        case CreateFailed(e) => Acquired(None, Some(request), ["Failed to create/get webhook: " + e])
  }

  /** A created webhook's name always starts with the prefix, whatever the channel is called. */
  lemma CreatedNameCarriesPrefix(channelName: string)
    ensures StartsWith(WebhookName(channelName), NamePrefix)
  {
    assert WebhookName(channelName)[..|NamePrefix|] == NamePrefix;
  }

  /**
   * Once a webhook has been created for a channel, a later call that lists it
   * reuses a prefixed webhook and creates nothing; when no prefixed webhook is
   * listed before it, the one reused is exactly the created one.
   */
  lemma ReuseAfterCreate(channelName: string, creation: Creation, before: seq<Webhook>, after: seq<Webhook>, creation': Creation)
    requires creation.CreatedWithId?
    requires forall i | 0 <= i < |before| :: !StartsWith(before[i].name, NamePrefix)
    ensures var first := CreateOrGetWebhook(channelName, Listed([]), creation);
            && first.webhook.Some?
            && var later := CreateOrGetWebhook(channelName, Listed(before + [first.webhook.value] + after), creation');
            later == Acquired(first.webhook, None, [])
  {
    var first := CreateOrGetWebhook(channelName, Listed([]), creation);
    var w := first.webhook.value;
    CreatedNameCarriesPrefix(channelName);
    var hooks := before + [w] + after;
    assert hooks[|before|] == w;
    assert forall k | 0 <= k < |before| :: hooks[k] == before[k];
  }

  /** The prefix test has no hyphen: any listed name that begins `stoat` is taken over. */
  lemma AnyStoatNameReused(channelName: string, w: Webhook, rest: seq<Webhook>, creation: Creation)
    requires StartsWith(w.name, NamePrefix)
    ensures CreateOrGetWebhook(channelName, Listed([w] + rest), creation) == Acquired(Some(w), None, [])
  {
  }
}
