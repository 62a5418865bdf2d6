/**
 * The content transcoder: rewrites message text between Discord markup and
 * Stoat markup. Towards Stoat: user mentions, role mentions, `<#digits>`
 * channel mentions, `||` spoilers, then `@everyone` escaping. Towards
 * Discord: `<#` + 26-character id + `>` channel mentions, `!!` spoilers,
 * then `@everyone` escaping.
 */
module Formatter {
  import opened Wrappers
  import opened Text
  import ChannelMapping

  type ChannelMaps = ChannelMapping.ChannelMaps

  /** A user the Discord message mentions (an entry of `message.mentions.users`). */
  datatype UserMention = UserMention(id: string, username: string)

  /** A role the Discord message mentions (an entry of `message.mentions.roles`). */
  datatype RoleMention = RoleMention(id: string, name: string)

  /** The mention lists of a Discord message; a missing list behaves as an empty one. */
  datatype Mentions = Mentions(users: seq<UserMention>, roles: seq<RoleMention>)

  const Everyone := "@everyone"
  const EscapedEveryone := "`@everyone`"

  /** Length of a Stoat channel id: the `{26}` of both channel-id patterns. */
  const StoatIdLength := 26

  // ---------------------------------------------------------------------
  // Lexical classes

  /** `\d`: an ASCII decimal digit. */
  predicate IsDigit(c: char) {
    '0' <= c <= '9'
  }

  /** `[0-9A-z]`: a digit or anything from 'A' to 'z', which includes `[\]^_` and the backquote. */
  predicate IsIdChar(c: char) {
    IsDigit(c) || 'A' <= c <= 'z'
  }

  /** `/^\d+$/`: a Discord channel id. */
  predicate AllDigits(id: string) {
    |id| > 0 && forall i | 0 <= i < |id| :: IsDigit(id[i])
  }

  /** `/^[0-9A-z]{26}/`: the first 26 characters are id characters; what follows is not checked. */
  predicate StoatShaped(id: string) {
    |id| >= StoatIdLength && forall i | 0 <= i < StoatIdLength :: IsIdChar(id[i])
  }

  // ---------------------------------------------------------------------
  // convertChannelId

  /**
   * Translates a channel id to the other platform: an all-digit id through
   * the forward index, otherwise a Stoat-shaped id through the reverse index;
   * an absent or empty mapped value, or an unrecognised id, leaves it as is.
   */
  function ConvertChannelId(id: string, maps: ChannelMaps): string {
    if AllDigits(id) then ChannelMapping.Lookup(maps.forward, id).GetOr(id)
    else if StoatShaped(id) then ChannelMapping.Lookup(maps.reverse, id).GetOr(id)
    else id
  }

  /** An id of neither shape is returned unchanged, whatever the maps hold. */
  lemma ConvertUnrecognised(id: string, maps: ChannelMaps)
    requires !AllDigits(id) && !StoatShaped(id)
    ensures ConvertChannelId(id, maps) == id
  {
  }

  /**
   * An all-digit id yields its truthy forward value, or itself; the reverse
   * index is never consulted.
   */
  lemma ConvertDiscordId(id: string, maps: ChannelMaps, otherReverse: map<string, string>)
    requires AllDigits(id)
    ensures id in maps.forward && maps.forward[id] != "" ==> ConvertChannelId(id, maps) == maps.forward[id]
    ensures !(id in maps.forward && maps.forward[id] != "") ==> ConvertChannelId(id, maps) == id
    ensures ConvertChannelId(id, maps) == ConvertChannelId(id, maps.(reverse := otherReverse))
  {
  }

  /**
   * A Stoat-shaped id that is not all digits yields its truthy reverse value,
   * or itself; the forward index is never consulted.
   */
  lemma ConvertStoatId(id: string, maps: ChannelMaps, otherForward: map<string, string>)
    requires StoatShaped(id) && !AllDigits(id)
    ensures id in maps.reverse && maps.reverse[id] != "" ==> ConvertChannelId(id, maps) == maps.reverse[id]
    ensures !(id in maps.reverse && maps.reverse[id] != "") ==> ConvertChannelId(id, maps) == id
    ensures ConvertChannelId(id, maps) == ConvertChannelId(id, maps.(forward := otherForward))
  {
  }

  /**
   * With exactly inverse indexes, converting a mapped Discord id to Stoat and
   * back returns it, as long as the Stoat id has the Stoat shape.
   */
  lemma ConvertRoundTrip(d: string, maps: ChannelMaps)
    requires ChannelMapping.ExactInverse(maps)
    requires AllDigits(d) && d in maps.forward
    requires StoatShaped(maps.forward[d]) && !AllDigits(maps.forward[d])
    ensures ConvertChannelId(ConvertChannelId(d, maps), maps) == d
  {
  }

  /** The same round trip starting from a mapped Stoat id. */
  lemma ConvertRoundTripFromStoat(s: string, maps: ChannelMaps)
    requires ChannelMapping.ExactInverse(maps)
    requires StoatShaped(s) && !AllDigits(s) && s in maps.reverse
    requires AllDigits(maps.reverse[s])
    ensures ConvertChannelId(ConvertChannelId(s, maps), maps) == s
  {
  }

  // ---------------------------------------------------------------------
  // Channel mentions towards Stoat: /<#(\d+)>/g

  /** Length of the run of digits that starts `s`. */
  function DigitRun(s: string): (n: nat)
    ensures n <= |s|
    ensures forall i | 0 <= i < n :: IsDigit(s[i])
    ensures n < |s| ==> !IsDigit(s[n])
    decreases |s|
  {
    if |s| > 0 && IsDigit(s[0]) then 1 + DigitRun(s[1..]) else 0
  }

  /**
   * The number of digits of the `<#digits>` token that starts `s`, or 0 when
   * none does. The digit run is greedy, and a shorter run would be followed
   * by a digit, not `>`, so the longest run is the only candidate.
   */
  function DigitTokenAt(s: string): (k: nat)
    ensures k > 0 ==> k + 3 <= |s| && s[..2] == "<#" && AllDigits(s[2..k + 2]) && s[k + 2..k + 3] == ">"
  {
    if |s| >= 2 && s[0] == '<' && s[1] == '#' then
      var n := DigitRun(s[2..]);
      if n > 0 && n + 2 < |s| && s[n + 2] == '>' then n else 0
    else 0
  }

  /** `<#` + digits + `>` is recognised as a token of exactly those digits. */
  lemma {:induction false} DigitRunOfToken(id: string, rest: string)
    requires forall i | 0 <= i < |id| :: IsDigit(id[i])
    ensures DigitRun(id + ">" + rest) == |id|
    decreases |id|
  {
    if |id| > 0 {
      assert (id + ">" + rest)[1..] == id[1..] + ">" + rest;
      DigitRunOfToken(id[1..], rest);
    }
  }

  lemma DigitTokenOf(id: string, rest: string)
    requires AllDigits(id)
    ensures DigitTokenAt("<#" + id + ">" + rest) == |id|
  {
    var s := "<#" + id + ">" + rest;
    assert s[2..] == id + ">" + rest;
    DigitRunOfToken(id, rest);
    assert s[|id| + 2] == '>';
  }

  /** Replaces each `<#digits>` token by `<#` + its converted id + `>`, scanning left to right. */
  function RewriteDigitMentions(s: string, maps: ChannelMaps): string
    decreases |s|
  {
    if |s| == 0 then s
    else
      var k := DigitTokenAt(s);
      if k > 0 then "<#" + ConvertChannelId(s[2..k + 2], maps) + ">" + RewriteDigitMentions(s[k + 3..], maps)
      else [s[0]] + RewriteDigitMentions(s[1..], maps)
  }

  /** A recognised token splits into `<#`, its digits, `>` and the rest of the text. */
  lemma DigitTokenSplit(s: string)
    requires DigitTokenAt(s) > 0
    ensures s == "<#" + s[2..DigitTokenAt(s) + 2] + ">" + s[DigitTokenAt(s) + 3..]
  {
    var k := DigitTokenAt(s);
    assert s == s[..2] + s[2..k + 2] + s[k + 2..k + 3] + s[k + 3..];
    assert s[..2] == "<#";
    assert s[k + 2..k + 3] == ">";
  }

  /** A `<#digits>` token becomes `<#` + converted id + `>`, and the scan resumes after it. */
  lemma RewriteDigitToken(id: string, rest: string, maps: ChannelMaps)
    requires AllDigits(id)
    ensures RewriteDigitMentions("<#" + id + ">" + rest, maps)
         == "<#" + ConvertChannelId(id, maps) + ">" + RewriteDigitMentions(rest, maps)
  {
    var s := "<#" + id + ">" + rest;
    DigitTokenOf(id, rest);
    assert s[2..|id| + 2] == id;
    assert s[|id| + 3..] == rest;
  }

  /** A character that does not open a token is copied, and the scan moves on by one. */
  lemma RewriteDigitPlain(c: char, rest: string, maps: ChannelMaps)
    requires c != '<'
    ensures RewriteDigitMentions([c] + rest, maps) == [c] + RewriteDigitMentions(rest, maps)
  {
    assert ([c] + rest)[1..] == rest;
  }

  /** Text with no `<#` is returned unchanged. */
  lemma {:induction false} RewriteDigitAbsent(s: string, maps: ChannelMaps)
    requires !Contains(s, "<#")
    ensures RewriteDigitMentions(s, maps) == s
    decreases |s|
  {
    if |s| > 0 {
      NotContainsHead(s, "<#");
      StartsWithPair(s, '<', '#');
      NotContainsSuffix(s, "<#", 1);
      RewriteDigitAbsent(s[1..], maps);
      assert [s[0]] + s[1..] == s;
    }
  }

  /** No all-digit channel id has a truthy forward entry. */
  predicate NoDigitIdMapped(maps: ChannelMaps) {
    forall d | d in maps.forward && maps.forward[d] != "" :: !AllDigits(d)
  }

  /** When no Discord channel id is mapped, every token is left unchanged, and so is the text. */
  lemma {:induction false} RewriteDigitUnmapped(s: string, maps: ChannelMaps)
    requires NoDigitIdMapped(maps)
    ensures RewriteDigitMentions(s, maps) == s
    decreases |s|
  {
    if |s| > 0 {
      var k := DigitTokenAt(s);
      if k > 0 {
        var id, rest := s[2..k + 2], s[k + 3..];
        DigitTokenSplit(s);
        RewriteDigitToken(id, rest, maps);
        ConvertDiscordId(id, maps, maps.reverse);
        RewriteDigitUnmapped(rest, maps);
      } else {
        RewriteDigitUnmapped(s[1..], maps);
        assert [s[0]] + s[1..] == s;
      }
    }
  }

  // ---------------------------------------------------------------------
  // Channel mentions towards Discord: /<#([0-9A-z]{26})>/g

  /** `s` starts with `<#`, 26 id characters and `>`. */
  predicate StoatTokenAt(s: string) {
    && |s| >= StoatIdLength + 3
    && s[0] == '<' && s[1] == '#'
    && (forall i | 2 <= i < StoatIdLength + 2 :: IsIdChar(s[i]))
    && s[StoatIdLength + 2] == '>'
  }

  /** A 26-character run of id characters. */
  predicate IsStoatTokenId(id: string) {
    |id| == StoatIdLength && forall i | 0 <= i < |id| :: IsIdChar(id[i])
  }

  /** Replaces each `<#` + 26 id characters + `>` token by `<#` + converted id + `>`. */
  function RewriteStoatMentions(s: string, maps: ChannelMaps): string
    decreases |s|
  {
    if |s| == 0 then s
    else if StoatTokenAt(s) then
      "<#" + ConvertChannelId(s[2..StoatIdLength + 2], maps) + ">"
        + RewriteStoatMentions(s[StoatIdLength + 3..], maps)
    else [s[0]] + RewriteStoatMentions(s[1..], maps)
  }

  /** A recognised token splits into `<#`, its 26-character id, `>` and the rest of the text. */
  lemma StoatTokenSplit(s: string)
    requires StoatTokenAt(s)
    ensures IsStoatTokenId(s[2..StoatIdLength + 2])
    ensures s == "<#" + s[2..StoatIdLength + 2] + ">" + s[StoatIdLength + 3..]
  {
    var k := StoatIdLength;
    assert s == s[..2] + s[2..k + 2] + s[k + 2..k + 3] + s[k + 3..];
    assert s[..2] == "<#";
    assert s[k + 2..k + 3] == ">";
  }

  /** A Stoat channel token becomes `<#` + converted id + `>`, and the scan resumes after it. */
  lemma RewriteStoatToken(id: string, rest: string, maps: ChannelMaps)
    requires IsStoatTokenId(id)
    ensures RewriteStoatMentions("<#" + id + ">" + rest, maps)
         == "<#" + ConvertChannelId(id, maps) + ">" + RewriteStoatMentions(rest, maps)
  {
    var s := "<#" + id + ">" + rest;
    assert forall i | 2 <= i < StoatIdLength + 2 :: s[i] == id[i - 2];
    assert StoatTokenAt(s);
    assert s[2..StoatIdLength + 2] == id;
    assert s[StoatIdLength + 3..] == rest;
  }

  /** A character that does not open a token is copied, and the scan moves on by one. */
  lemma RewriteStoatPlain(c: char, rest: string, maps: ChannelMaps)
    requires c != '<'
    ensures RewriteStoatMentions([c] + rest, maps) == [c] + RewriteStoatMentions(rest, maps)
  {
    assert ([c] + rest)[1..] == rest;
  }

  /** Text with no `<#` is returned unchanged. */
  lemma {:induction false} RewriteStoatAbsent(s: string, maps: ChannelMaps)
    requires !Contains(s, "<#")
    ensures RewriteStoatMentions(s, maps) == s
    decreases |s|
  {
    if |s| > 0 {
      NotContainsHead(s, "<#");
      StartsWithPair(s, '<', '#');
      NotContainsSuffix(s, "<#", 1);
      RewriteStoatAbsent(s[1..], maps);
      assert [s[0]] + s[1..] == s;
    }
  }

  /** No Stoat-shaped id has a truthy reverse entry and no all-digit id a truthy forward entry. */
  predicate NothingMapped(maps: ChannelMaps) {
    && NoDigitIdMapped(maps)
    && forall x | x in maps.reverse && maps.reverse[x] != "" :: !StoatShaped(x)
  }

  /** When no channel is mapped, every Stoat token is left unchanged, and so is the text. */
  lemma {:induction false} RewriteStoatUnmapped(s: string, maps: ChannelMaps)
    requires NothingMapped(maps)
    ensures RewriteStoatMentions(s, maps) == s
    decreases |s|
  {
    if |s| > 0 {
      if StoatTokenAt(s) {
        var id, rest := s[2..StoatIdLength + 2], s[StoatIdLength + 3..];
        StoatTokenSplit(s);
        RewriteStoatToken(id, rest, maps);
        assert ConvertChannelId(id, maps) == id;
        RewriteStoatUnmapped(rest, maps);
      } else {
        RewriteStoatUnmapped(s[1..], maps);
        assert [s[0]] + s[1..] == s;
      }
    }
  }

  // ---------------------------------------------------------------------
  // User mentions: new RegExp(`<@!?${user.id}>`, 'g'), one user after another

  /** The nickname form of a user mention, `<@!id>`. */
  function NickTag(id: string): string {
    "<@!" + id + ">"
  }

  /** The plain form of a user mention, `<@id>`. */
  function UserTag(id: string): string {
    "<@" + id + ">"
  }

  /** Replaces every `<@!id>` and `<@id>` token of one user by `@username`, trying the `!` form first. */
  function ReplaceUserMention(s: string, u: UserMention): string
    decreases |s|
  {
    if |s| == 0 then s
    else if StartsWith(s, NickTag(u.id)) then "@" + u.username + ReplaceUserMention(s[|u.id| + 4..], u)
    else if StartsWith(s, UserTag(u.id)) then "@" + u.username + ReplaceUserMention(s[|u.id| + 3..], u)
    else [s[0]] + ReplaceUserMention(s[1..], u)
  }

  /** Applies each user's replacement in list order. */
  function ReplaceUsers(s: string, users: seq<UserMention>): string
    decreases |users|
  {
    if |users| == 0 then s else ReplaceUsers(ReplaceUserMention(s, users[0]), users[1..])
  }

  /** A role mention, `<@&id>`. */
  function RoleTag(id: string): string {
    "<@&" + id + ">"
  }

  /** Replaces every `<@&id>` token of one role by `@name`. */
  function ReplaceRole(s: string, r: RoleMention): string {
    ReplaceAll(s, RoleTag(r.id), "@" + r.name)
  }

  /** Applies each role's replacement in list order. */
  function ReplaceRoles(s: string, roles: seq<RoleMention>): string
    decreases |roles|
  {
    if |roles| == 0 then s
    else ReplaceRoles(ReplaceRole(s, roles[0]), roles[1..])
  }

  /** Where no token of the user starts, one character is copied and the scan moves on. */
  lemma UserStep(s: string, u: UserMention)
    requires |s| > 0 && !StartsWith(s, NickTag(u.id)) && !StartsWith(s, UserTag(u.id))
    ensures ReplaceUserMention(s, u) == [s[0]] + ReplaceUserMention(s[1..], u)
  {
  }

  /** A text chunk with no `<` passes through one user's replacement untouched. */
  lemma {:induction false} UserPlainChunk(chunk: string, rest: string, u: UserMention)
    requires '<' !in chunk
    ensures ReplaceUserMention(chunk + rest, u) == chunk + ReplaceUserMention(rest, u)
    decreases |chunk|
  {
    if |chunk| > 0 {
      var s := chunk + rest;
      assert s[0] == chunk[0] != '<';
      StartsWithAt(s, NickTag(u.id), 0);
      StartsWithAt(s, UserTag(u.id), 0);
      UserStep(s, u);
      assert s[1..] == chunk[1..] + rest;
      UserPlainChunk(chunk[1..], rest, u);
      assert ReplaceUserMention(s, u) == [chunk[0]] + (chunk[1..] + ReplaceUserMention(rest, u));
      assert chunk == [chunk[0]] + chunk[1..];
      assert [chunk[0]] + (chunk[1..] + ReplaceUserMention(rest, u)) == chunk + ReplaceUserMention(rest, u);
    } else {
      assert chunk + rest == rest;
    }
  }

  /** A chunk with no `<` passes through every user's replacement untouched. */
  lemma {:induction false} UsersPlainChunk(chunk: string, rest: string, users: seq<UserMention>)
    requires '<' !in chunk
    ensures ReplaceUsers(chunk + rest, users) == chunk + ReplaceUsers(rest, users)
    decreases |users|
  {
    if |users| > 0 {
      UserPlainChunk(chunk, rest, users[0]);
      UsersPlainChunk(chunk, ReplaceUserMention(rest, users[0]), users[1..]);
    }
  }

  /** Discord snowflake ids are decimal digits. */
  predicate DigitIds(users: seq<UserMention>) {
    forall i | 0 <= i < |users| :: AllDigits(users[i].id)
  }

  /** `<@id>` for a listed user becomes `@username`. */
  lemma UserToken(u: UserMention, rest: string)
    requires AllDigits(u.id)
    ensures ReplaceUserMention(UserTag(u.id) + rest, u) == "@" + u.username + ReplaceUserMention(rest, u)
  {
    var s := UserTag(u.id) + rest;
    StartsWithAt(s, NickTag(u.id), 2);
    assert s[2] == u.id[0];
    assert s[..|u.id| + 3] == UserTag(u.id);
    assert s[|u.id| + 3..] == rest;
  }

  /** `<@!id>` (the nickname form) for a listed user becomes `@username`. */
  lemma UserNickToken(u: UserMention, rest: string)
    ensures ReplaceUserMention(NickTag(u.id) + rest, u) == "@" + u.username + ReplaceUserMention(rest, u)
  {
    var s := NickTag(u.id) + rest;
    assert s[..|u.id| + 4] == NickTag(u.id);
    assert s[|u.id| + 4..] == rest;
  }

  /** The token of one id never starts with the token of another. */
  lemma OtherIdNotPrefix(other: string, id: string, rest: string)
    requires AllDigits(other) && AllDigits(id) && other != id
    ensures !StartsWith(UserTag(other) + rest, UserTag(id))
  {
    var s := UserTag(other) + rest;
    var p := UserTag(id);
    if |id| < |other| {
      StartsWithAt(s, p, |id| + 2);
      assert s[|id| + 2] == other[|id|];
    } else if |other| < |id| {
      StartsWithAt(s, p, |other| + 2);
      assert p[|other| + 2] == id[|other|];
    } else {
      StartsWithSlice(s, p, 2, |id| + 2);
      assert s[2..|other| + 2] == other;
      assert p[2..|id| + 2] == id;
    }
  }

  /** A plain token never starts with a nickname token. */
  lemma NickNotPrefix(other: string, id: string, rest: string)
    requires AllDigits(other)
    ensures !StartsWith(UserTag(other) + rest, NickTag(id))
  {
    var s := UserTag(other) + rest;
    StartsWithAt(s, NickTag(id), 2);
    assert s[2] == other[0];
  }

  /** Past its `<`, a digit token is a chunk free of `<`. */
  lemma TagTail(id: string, rest: string) returns (chunk: string)
    requires AllDigits(id)
    ensures '<' !in chunk
    ensures (UserTag(id) + rest)[1..] == chunk + rest
    ensures forall t :: UserTag(id) + t == ['<'] + (chunk + t)
  {
    chunk := "@" + id + ">";
    assert forall i | 0 <= i < |id| :: id[i] != '<';
  }

  /** A token `<@other>` of a different user is left as it is. */
  lemma OtherUserToken(other: string, u: UserMention, rest: string)
    requires AllDigits(other) && AllDigits(u.id) && other != u.id
    ensures ReplaceUserMention(UserTag(other) + rest, u) == UserTag(other) + ReplaceUserMention(rest, u)
  {
    var s := UserTag(other) + rest;
    OtherIdNotPrefix(other, u.id, rest);
    NickNotPrefix(other, u.id, rest);
    UserStep(s, u);
    var chunk := TagTail(other, rest);
    UserPlainChunk(chunk, rest, u);
  }

  /** A token for an id that no listed user has survives all the user replacements. */
  lemma {:induction false} UnlistedUserToken(other: string, users: seq<UserMention>, rest: string)
    requires AllDigits(other) && DigitIds(users)
    requires forall i | 0 <= i < |users| :: users[i].id != other
    ensures ReplaceUsers(UserTag(other) + rest, users) == UserTag(other) + ReplaceUsers(rest, users)
    decreases |users|
  {
    if |users| > 0 {
      OtherUserToken(other, users[0], rest);
      UnlistedUserToken(other, users[1..], ReplaceUserMention(rest, users[0]));
    }
  }

  /**
   * A token `<@id>` of the user listed at index `k` (ids distinct, names free
   * of `<`) becomes `@username` after all user replacements.
   */
  lemma {:induction false} ListedUserToken(users: seq<UserMention>, k: nat, rest: string)
    requires k < |users| && DigitIds(users)
    requires forall i | 0 <= i < |users| && i != k :: users[i].id != users[k].id
    requires forall i | 0 <= i < |users| :: '<' !in users[i].username
    ensures ReplaceUsers(UserTag(users[k].id) + rest, users)
         == "@" + users[k].username + ReplaceUsers(rest, users)
    decreases |users|
  {
    var u := users[k];
    if k == 0 {
      UserToken(u, rest);
      UsersPlainChunk("@" + u.username, ReplaceUserMention(rest, u), users[1..]);
    } else {
      OtherUserToken(u.id, users[0], rest);
      var tail := users[1..];
      assert tail[k - 1] == u;
      ListedUserToken(tail, k - 1, ReplaceUserMention(rest, users[0]));
    }
  }

  /** The nickname token of one id never starts with the nickname token of another. */
  lemma OtherNickNotPrefix(other: string, id: string, rest: string)
    requires AllDigits(other) && AllDigits(id) && other != id
    ensures !StartsWith(NickTag(other) + rest, NickTag(id))
  {
    var s := NickTag(other) + rest;
    var p := NickTag(id);
    if |id| < |other| {
      StartsWithAt(s, p, |id| + 3);
      assert s[|id| + 3] == other[|id|];
    } else if |other| < |id| {
      StartsWithAt(s, p, |other| + 3);
      assert p[|other| + 3] == id[|other|];
    } else {
      StartsWithSlice(s, p, 3, |id| + 3);
      assert s[3..|other| + 3] == other;
      assert p[3..|id| + 3] == id;
    }
  }

  /** A nickname token never starts with a plain token. */
  lemma PlainNotNickPrefix(other: string, id: string, rest: string)
    requires AllDigits(id)
    ensures !StartsWith(NickTag(other) + rest, UserTag(id))
  {
    var s := NickTag(other) + rest;
    StartsWithAt(s, UserTag(id), 2);
    assert s[2] == '!';
    assert UserTag(id)[2] == id[0];
  }

  /** Past its `<`, a digit nickname token is a chunk free of `<`. */
  lemma NickTail(id: string, rest: string) returns (chunk: string)
    requires AllDigits(id)
    ensures '<' !in chunk
    ensures (NickTag(id) + rest)[1..] == chunk + rest
    ensures forall t :: NickTag(id) + t == ['<'] + (chunk + t)
  {
    chunk := "@!" + id + ">";
    assert forall i | 0 <= i < |id| :: id[i] != '<';
  }

  /** A token `<@!other>` of a different user is left as it is. */
  lemma OtherUserNickToken(other: string, u: UserMention, rest: string)
    requires AllDigits(other) && AllDigits(u.id) && other != u.id
    ensures ReplaceUserMention(NickTag(other) + rest, u) == NickTag(other) + ReplaceUserMention(rest, u)
  {
    var s := NickTag(other) + rest;
    OtherNickNotPrefix(other, u.id, rest);
    PlainNotNickPrefix(other, u.id, rest);
    UserStep(s, u);
    var chunk := NickTail(other, rest);
    UserPlainChunk(chunk, rest, u);
  }

  /** A nickname token for an id that no listed user has survives all the user replacements. */
  lemma {:induction false} UnlistedUserNickToken(other: string, users: seq<UserMention>, rest: string)
    requires AllDigits(other) && DigitIds(users)
    requires forall i | 0 <= i < |users| :: users[i].id != other
    ensures ReplaceUsers(NickTag(other) + rest, users) == NickTag(other) + ReplaceUsers(rest, users)
    decreases |users|
  {
    if |users| > 0 {
      OtherUserNickToken(other, users[0], rest);
      UnlistedUserNickToken(other, users[1..], ReplaceUserMention(rest, users[0]));
    }
  }

  /**
   * A token `<@!id>` of the user listed at index `k` (ids distinct, names
   * free of `<`) becomes `@username` after all user replacements.
   */
  lemma {:induction false} ListedUserNickToken(users: seq<UserMention>, k: nat, rest: string)
    requires k < |users| && DigitIds(users)
    requires forall i | 0 <= i < |users| && i != k :: users[i].id != users[k].id
    requires forall i | 0 <= i < |users| :: '<' !in users[i].username
    ensures ReplaceUsers(NickTag(users[k].id) + rest, users)
         == "@" + users[k].username + ReplaceUsers(rest, users)
    decreases |users|
  {
    var u := users[k];
    if k == 0 {
      UserNickToken(u, rest);
      UsersPlainChunk("@" + u.username, ReplaceUserMention(rest, u), users[1..]);
    } else {
      OtherUserNickToken(u.id, users[0], rest);
      var tail := users[1..];
      assert tail[k - 1] == u;
      ListedUserNickToken(tail, k - 1, ReplaceUserMention(rest, users[0]));
    }
  }

  // ---------------------------------------------------------------------
  // Role mentions: new RegExp(`<@&${role.id}>`, 'g'), one role after another

  /** A role's `<@&id>` token becomes `@name`, and the scan resumes after it. */
  lemma RoleToken(r: RoleMention, rest: string)
    ensures ReplaceRole(RoleTag(r.id) + rest, r) == "@" + r.name + ReplaceRole(rest, r)
  {
    var tag := RoleTag(r.id);
    assert (tag + rest)[..|tag|] == tag;
    assert (tag + rest)[|tag|..] == rest;
  }

  /** The token of one role id never starts with the token of another. */
  lemma OtherRoleNotPrefix(other: string, id: string, rest: string)
    requires AllDigits(other) && AllDigits(id) && other != id
    ensures !StartsWith(RoleTag(other) + rest, RoleTag(id))
  {
    var s := RoleTag(other) + rest;
    var p := RoleTag(id);
    if |id| < |other| {
      StartsWithAt(s, p, |id| + 3);
      assert s[|id| + 3] == other[|id|];
    } else if |other| < |id| {
      StartsWithAt(s, p, |other| + 3);
      assert p[|other| + 3] == id[|other|];
    } else {
      StartsWithSlice(s, p, 3, |id| + 3);
      assert s[3..|other| + 3] == other;
      assert p[3..|id| + 3] == id;
    }
  }

  /** Past its `<`, a digit role token is a chunk free of `<`. */
  lemma RoleTagTail(id: string, rest: string) returns (chunk: string)
    requires AllDigits(id)
    ensures '<' !in chunk
    ensures (RoleTag(id) + rest)[1..] == chunk + rest
    ensures forall t :: RoleTag(id) + t == ['<'] + (chunk + t)
  {
    chunk := "@&" + id + ">";
    assert forall i | 0 <= i < |id| :: id[i] != '<';
  }

  /** A token `<@&other>` of a different role is left as it is. */
  lemma OtherRoleToken(other: string, r: RoleMention, rest: string)
    requires AllDigits(other) && AllDigits(r.id) && other != r.id
    ensures ReplaceRole(RoleTag(other) + rest, r) == RoleTag(other) + ReplaceRole(rest, r)
  {
    var s := RoleTag(other) + rest;
    OtherRoleNotPrefix(other, r.id, rest);
    ReplaceAllStep(s, RoleTag(r.id), "@" + r.name);
    var chunk := RoleTagTail(other, rest);
    ReplaceAllPlainChunk(chunk, rest, RoleTag(r.id), "@" + r.name);
  }

  /** A chunk with no `<` passes through every role's replacement untouched. */
  lemma {:induction false} RolesPlainChunk(chunk: string, rest: string, roles: seq<RoleMention>)
    requires '<' !in chunk
    ensures ReplaceRoles(chunk + rest, roles) == chunk + ReplaceRoles(rest, roles)
    decreases |roles|
  {
    if |roles| > 0 {
      ReplaceAllPlainChunk(chunk, rest, RoleTag(roles[0].id), "@" + roles[0].name);
      RolesPlainChunk(chunk, ReplaceRole(rest, roles[0]), roles[1..]);
    }
  }

  /** Discord role ids are decimal digits. */
  predicate DigitRoleIds(roles: seq<RoleMention>) {
    forall i | 0 <= i < |roles| :: AllDigits(roles[i].id)
  }

  /** A token for an id that no listed role has survives all the role replacements. */
  lemma {:induction false} UnlistedRoleToken(other: string, roles: seq<RoleMention>, rest: string)
    requires AllDigits(other) && DigitRoleIds(roles)
    requires forall i | 0 <= i < |roles| :: roles[i].id != other
    ensures ReplaceRoles(RoleTag(other) + rest, roles) == RoleTag(other) + ReplaceRoles(rest, roles)
    decreases |roles|
  {
    if |roles| > 0 {
      OtherRoleToken(other, roles[0], rest);
      UnlistedRoleToken(other, roles[1..], ReplaceRole(rest, roles[0]));
    }
  }

  /**
   * A token `<@&id>` of the role listed at index `k` (ids distinct, names free
   * of `<`) becomes `@name` after all role replacements.
   */
  lemma {:induction false} ListedRoleToken(roles: seq<RoleMention>, k: nat, rest: string)
    requires k < |roles| && DigitRoleIds(roles)
    requires forall i | 0 <= i < |roles| && i != k :: roles[i].id != roles[k].id
    requires forall i | 0 <= i < |roles| :: '<' !in roles[i].name
    ensures ReplaceRoles(RoleTag(roles[k].id) + rest, roles) == "@" + roles[k].name + ReplaceRoles(rest, roles)
    decreases |roles|
  {
    var r := roles[k];
    if k == 0 {
      RoleToken(r, rest);
      RolesPlainChunk("@" + r.name, ReplaceRole(rest, r), roles[1..]);
    } else {
      OtherRoleToken(r.id, roles[0], rest);
      var tail := roles[1..];
      assert tail[k - 1] == r;
      ListedRoleToken(tail, k - 1, ReplaceRole(rest, roles[0]));
    }
  }

  /** Text with no `<@` passes one user's replacement unchanged. */
  lemma {:induction false} UserAbsent(s: string, u: UserMention)
    requires !Contains(s, "<@")
    ensures ReplaceUserMention(s, u) == s
    decreases |s|
  {
    if |s| > 0 {
      NotContainsHead(s, "<@");
      StartsWithPrefix(s, "<@", "!" + u.id + ">");
      assert "<@" + ("!" + u.id + ">") == NickTag(u.id);
      StartsWithPrefix(s, "<@", u.id + ">");
      assert "<@" + (u.id + ">") == UserTag(u.id);
      NotContainsSuffix(s, "<@", 1);
      UserAbsent(s[1..], u);
      assert [s[0]] + s[1..] == s;
    }
  }

  /** Text with no `<@` passes all user and role replacements unchanged. */
  lemma {:induction false} MentionsAbsent(s: string, users: seq<UserMention>, roles: seq<RoleMention>)
    requires !Contains(s, "<@")
    ensures ReplaceUsers(s, users) == s
    ensures ReplaceRoles(s, roles) == s
    decreases |users| + |roles|
  {
    if |users| > 0 {
      UserAbsent(s, users[0]);
      MentionsAbsent(s, users[1..], roles);
    }
    if |roles| > 0 {
      NotContainsExtension(s, "<@", "&" + roles[0].id + ">");
      assert "<@" + ("&" + roles[0].id + ">") == RoleTag(roles[0].id);
      ReplaceAllAbsent(s, RoleTag(roles[0].id), "@" + roles[0].name);
      MentionsAbsent(s, users, roles[1..]);
    }
  }

  // ---------------------------------------------------------------------
  // @everyone escaping

  function EscapeEveryone(s: string): string {
    ReplaceAll(s, Everyone, EscapedEveryone)
  }

  /** As long as the output shows no backquote, it copies the input. */
  lemma {:induction false} EscapePrefix(t: string, k: nat)
    ensures k <= |EscapeEveryone(t)| && '`' !in EscapeEveryone(t)[..k]
         ==> k <= |t| && EscapeEveryone(t)[..k] == t[..k]
    decreases |t|
  {
    var out := EscapeEveryone(t);
    if k == 0 || |t| < |Everyone| {
    } else if t[..|Everyone|] == Everyone {
      assert out[0] == '`';
      assert k <= |out| ==> out[..k][0] == '`';
    } else {
      var r := EscapeEveryone(t[1..]);
      assert out == [t[0]] + r;
      EscapePrefix(t[1..], k - 1);
      if k <= |out| && '`' !in out[..k] {
        assert out[..k][1..] == r[..k - 1];
        assert out[..k] == [t[0]] + r[..k - 1];
        assert t[..k] == [t[0]] + t[1..][..k - 1];
      }
    }
  }

  /** Every `@everyone` left in the escaped text sits between two backquotes. */
  ghost predicate EveryoneWrapped(out: string) {
    forall i | OccursAt(out, Everyone, i) :: 0 < i && i + |Everyone| < |out| && out[i - 1] == '`' && out[i + |Everyone|] == '`'
  }

  /** When the text does not open with `@everyone`, neither does its escaped form. */
  lemma EscapeKeepsHead(s: string)
    requires |s| >= |Everyone| && s[..|Everyone|] != Everyone
    ensures !OccursAt(EscapeEveryone(s), Everyone, 0)
  {
    var out := EscapeEveryone(s);
    var r := EscapeEveryone(s[1..]);
    assert out == [s[0]] + r;
    var e := Everyone[1..];
    assert Everyone == ['@'] + e;
    assert '`' !in e;
    assert s[..|Everyone|] == [s[0]] + s[1..][..|e|];
    if OccursAt(out, Everyone, 0) {
      assert out[0] == out[..|Everyone|][0];
      assert s[0] == '@';
      assert r[..|e|] == out[1..|Everyone|] == e;
      EscapePrefix(s[1..], |e|);
      assert false;
    }
  }

  /** The escaped form of text opening with `@everyone`: every occurrence is wrapped. */
  lemma EscapeWrapsLeading(s: string)
    requires |s| >= |Everyone| && s[..|Everyone|] == Everyone
    requires EveryoneWrapped(EscapeEveryone(s[|Everyone|..]))
    ensures EveryoneWrapped(EscapeEveryone(s))
  {
    var out := EscapeEveryone(s);
    var r := EscapeEveryone(s[|Everyone|..]);
    assert out == EscapedEveryone + r;
    forall i | OccursAt(out, Everyone, i)
      ensures 0 < i && i + |Everyone| < |out| && out[i - 1] == '`' && out[i + |Everyone|] == '`'
    {
      if i < |EscapedEveryone| {
        assert out[i] == '@';
        assert out[i] == EscapedEveryone[i];
        assert i == 1;
      } else {
        var j := i - |EscapedEveryone|;
        assert out[|EscapedEveryone|..] == r;
        assert r[j..j + |Everyone|] == out[|EscapedEveryone|..][j..j + |Everyone|] == out[i..i + |Everyone|];
        assert OccursAt(r, Everyone, j);
        assert out[i - 1] == r[j - 1];
        assert out[i + |Everyone|] == r[j + |Everyone|];
      }
    }
  }

  /** The escaped form of text whose first character is copied: every occurrence is wrapped. */
  lemma EscapeWrapsCopied(s: string)
    requires |s| >= |Everyone| && s[..|Everyone|] != Everyone
    requires EveryoneWrapped(EscapeEveryone(s[1..]))
    ensures EveryoneWrapped(EscapeEveryone(s))
  {
    var out := EscapeEveryone(s);
    var r := EscapeEveryone(s[1..]);
    assert out == [s[0]] + r;
    EscapeKeepsHead(s);
    forall i | OccursAt(out, Everyone, i)
      ensures 0 < i && i + |Everyone| < |out| && out[i - 1] == '`' && out[i + |Everyone|] == '`'
    {
      assert i != 0;
      assert r[i - 1..i - 1 + |Everyone|] == out[i..i + |Everyone|];
      assert OccursAt(r, Everyone, i - 1);
      assert out[i - 1] == r[i - 2];
      assert out[i + |Everyone|] == r[i - 1 + |Everyone|];
    }
  }

  /** Escaping wraps every occurrence, however many there are. */
  lemma {:induction false} EscapeWrapsAll(s: string)
    ensures EveryoneWrapped(EscapeEveryone(s))
    decreases |s|
  {
    if |s| < |Everyone| {
      assert EscapeEveryone(s) == s;
    } else if s[..|Everyone|] == Everyone {
      EscapeWrapsAll(s[|Everyone|..]);
      EscapeWrapsLeading(s);
    } else {
      EscapeWrapsAll(s[1..]);
      EscapeWrapsCopied(s);
    }
  }

  // ---------------------------------------------------------------------
  // The two formatters

  /** formatMessageForStoat: mentions, channel mentions, `||` to `!!`, `@everyone` escaping. */
  function FormatForStoat(content: string, mentions: Mentions, maps: ChannelMaps): string {
    var named := ReplaceRoles(ReplaceUsers(content, mentions.users), mentions.roles);
    var linked := RewriteDigitMentions(named, maps);
    EscapeEveryone(ReplaceAll(linked, "||", "!!"))
  }

  /** formatMessageForDiscord: channel mentions, `!!` to `||`, `@everyone` escaping. */
  function FormatForDiscord(content: string, maps: ChannelMaps): string {
    var linked := RewriteStoatMentions(content, maps);
    EscapeEveryone(ReplaceAll(linked, "!!", "||"))
  }

  /** Both formatters leave every `@everyone` of their output wrapped in backquotes. */
  lemma FormattersEscapeEveryone(content: string, mentions: Mentions, maps: ChannelMaps)
    ensures EveryoneWrapped(FormatForStoat(content, mentions, maps))
    ensures EveryoneWrapped(FormatForDiscord(content, maps))
  {
    var named := ReplaceRoles(ReplaceUsers(content, mentions.users), mentions.roles);
    EscapeWrapsAll(ReplaceAll(RewriteDigitMentions(named, maps), "||", "!!"));
    EscapeWrapsAll(ReplaceAll(RewriteStoatMentions(content, maps), "!!", "||"));
  }

  /**
   * Spoilers are translated in both directions: no `||` reaches Stoat and no
   * `!!` reaches Discord, since the swap leaves no doubled delimiter and the
   * `@everyone` escaping never joins two of them.
   */
  lemma SpoilersSwapped(content: string, mentions: Mentions, maps: ChannelMaps)
    ensures !Contains(FormatForStoat(content, mentions, maps), "||")
    ensures !Contains(FormatForDiscord(content, maps), "!!")
  {
    assert '|' !in EscapedEveryone && '!' !in EscapedEveryone;
    var named := ReplaceRoles(ReplaceUsers(content, mentions.users), mentions.roles);
    var toStoat := ReplaceAll(RewriteDigitMentions(named, maps), "||", "!!");
    SwapLeavesNoPair(RewriteDigitMentions(named, maps), '|', '!');
    ReplaceAllKeepsNoPair(toStoat, Everyone, EscapedEveryone, '|');
    NoPairNotContains(EscapeEveryone(toStoat), '|');
    var toDiscord := ReplaceAll(RewriteStoatMentions(content, maps), "!!", "||");
    SwapLeavesNoPair(RewriteStoatMentions(content, maps), '!', '|');
    ReplaceAllKeepsNoPair(toDiscord, Everyone, EscapedEveryone, '!');
    NoPairNotContains(EscapeEveryone(toDiscord), '!');
  }

  /** Text with no mention, channel, spoiler or `@everyone` marker leaves `formatMessageForStoat` unchanged. */
  lemma FormatForStoatPlain(content: string, mentions: Mentions, maps: ChannelMaps)
    requires !Contains(content, "<@") && !Contains(content, "<#")
    requires !Contains(content, "||") && !Contains(content, Everyone)
    ensures FormatForStoat(content, mentions, maps) == content
  {
    MentionsAbsent(content, mentions.users, []);
    MentionsAbsent(content, [], mentions.roles);
    RewriteDigitAbsent(content, maps);
    ReplaceAllAbsent(content, "||", "!!");
    ReplaceAllAbsent(content, Everyone, EscapedEveryone);
  }

  /** Text with no channel, spoiler or `@everyone` marker leaves `formatMessageForDiscord` unchanged. */
  lemma FormatForDiscordPlain(content: string, maps: ChannelMaps)
    requires !Contains(content, "<#") && !Contains(content, "!!") && !Contains(content, Everyone)
    ensures FormatForDiscord(content, maps) == content
  {
    RewriteStoatAbsent(content, maps);
    ReplaceAllAbsent(content, "!!", "||");
    ReplaceAllAbsent(content, Everyone, EscapedEveryone);
  }

  /**
   * Discord text without `<`, `!` or `@` survives the trip to Stoat and back
   * exactly: only its `||` spoilers change, and they change back.
   */
  lemma DiscordRoundTrip(s: string, mentions: Mentions, maps: ChannelMaps, maps': ChannelMaps)
    requires '<' !in s && '!' !in s && '@' !in s
    ensures FormatForDiscord(FormatForStoat(s, mentions, maps), maps') == s
  {
    FirstCharAbsent(s, "<@");
    FirstCharAbsent(s, "<#");
    MentionsAbsent(s, mentions.users, []);
    MentionsAbsent(s, [], mentions.roles);
    RewriteDigitAbsent(s, maps);
    var swapped := ReplaceAll(s, "||", "!!");
    ReplaceAllKeepsAbsent(s, "||", "!!", '@');
    FirstCharAbsent(swapped, Everyone);
    ReplaceAllAbsent(swapped, Everyone, EscapedEveryone);
    assert FormatForStoat(s, mentions, maps) == swapped;
    ReplaceAllKeepsAbsent(s, "||", "!!", '<');
    FirstCharAbsent(swapped, "<#");
    RewriteStoatAbsent(swapped, maps');
    SwapRoundTrip(s, '|', '!');
    FirstCharAbsent(s, Everyone);
    ReplaceAllAbsent(s, Everyone, EscapedEveryone);
  }

  /** Stoat text without `<`, `|` or `@` survives the trip to Discord and back exactly. */
  lemma StoatRoundTrip(s: string, mentions: Mentions, maps: ChannelMaps, maps': ChannelMaps)
    requires '<' !in s && '|' !in s && '@' !in s
    ensures FormatForStoat(FormatForDiscord(s, maps), mentions, maps') == s
  {
    FirstCharAbsent(s, "<#");
    RewriteStoatAbsent(s, maps);
    var swapped := ReplaceAll(s, "!!", "||");
    ReplaceAllKeepsAbsent(s, "!!", "||", '@');
    FirstCharAbsent(swapped, Everyone);
    ReplaceAllAbsent(swapped, Everyone, EscapedEveryone);
    assert FormatForDiscord(s, maps) == swapped;
    ReplaceAllKeepsAbsent(s, "!!", "||", '<');
    FirstCharAbsent(swapped, "<@");
    FirstCharAbsent(swapped, "<#");
    MentionsAbsent(swapped, mentions.users, []);
    MentionsAbsent(swapped, [], mentions.roles);
    RewriteDigitAbsent(swapped, maps');
    SwapRoundTrip(s, '!', '|');
    FirstCharAbsent(s, Everyone);
    ReplaceAllAbsent(s, Everyone, EscapedEveryone);
  }
}
