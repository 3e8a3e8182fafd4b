/**
 * `/award list` and the embed every award is shown with: the Discord
 * message-link matcher, the description/image splitter and the field
 * choices. Network answers (the channel and message fetches, the HEAD
 * request on an image link) are given as oracle values.
 */
module AwardList {
  import opened Wrappers
  import opened JsText
  import opened AwardCatalogue

  // ---------------------------------------------------------------------
  // The message-link pattern
  //   ^https://(?:canary\.|ptb\.)?discord\.com/channels/\d+/(\d+)/(\d+)$
  // ---------------------------------------------------------------------

  datatype LinkPrefix = Stable | Canary | Ptb

  function PrefixText(p: LinkPrefix): string {
    match p
    case Stable => ""
    case Canary => "canary."
    case Ptb => "ptb."
  }

  /** A non-empty run of ASCII digits, what `\d+` matches. */
  predicate IsDigits(s: string) {
    |s| > 0 && forall i :: 0 <= i < |s| ==> IsDecimalDigit(s[i])
  }

  /** The parts of a message link: the three ids are the pattern's three digit runs. */
  datatype MessageLink = MessageLink(prefix: LinkPrefix, guildId: string, channelId: string, messageId: string)

  predicate ValidLink(l: MessageLink) {
    IsDigits(l.guildId) && IsDigits(l.channelId) && IsDigits(l.messageId)
  }

  const Scheme: string := "https://"
  const ChannelsPath: string := "discord.com/channels/"

  /** The three ids as the link writes them, `/`-separated. */
  function IdsText(guildId: string, channelId: string, messageId: string): string {
    guildId + ("/" + (channelId + ("/" + messageId)))
  }

  function FormatLink(l: MessageLink): string {
    Scheme + (PrefixText(l.prefix) + (ChannelsPath + IdsText(l.guildId, l.channelId, l.messageId)))
  }

  /** Splits `s` into the optional subdomain prefix and what follows it. */
  function SplitPrefix(s: string): (r: (LinkPrefix, string))
    ensures s == PrefixText(r.0) + r.1
  {
    if StartsWith(s, "canary.") then (Canary, s[7..])
    else if StartsWith(s, "ptb.") then (Ptb, s[4..])
    else (Stable, s)
  }

  /** Splits `s` at its first `/` after a non-empty run of digits. */
  function SplitDigits(s: string): (r: Option<(string, string)>)
    ensures r.Some? ==> IsDigits(r.value.0) && s == r.value.0 + ("/" + r.value.1)
  {
    var n := DigitRun(s, 10);
    if n == 0 || n == |s| || s[n] != '/' then None
    else
      assert s == s[..n] + ("/" + s[n + 1..]);
      Some((s[..n], s[n + 1..]))
  }

  lemma {:induction false} DigitRunOf(d: string, rest: string)
    requires IsDigits(d)
    ensures DigitRun(d + ("/" + rest), 10) == |d|
  {
    var s := d + ("/" + rest);
    assert s[0] == d[0];
    if |d| == 1 {
      assert s[1..] == "/" + rest;
    } else {
      assert s[1..] == d[1..] + ("/" + rest);
      DigitRunOf(d[1..], rest);
    }
  }

  /** Matches `\d+/(\d+)/(\d+)$` against the text after `channels/`. */
  function MatchIds(ids: string): (r: Option<(string, string, string)>)
    ensures r.Some? ==> IsDigits(r.value.0) && IsDigits(r.value.1) && IsDigits(r.value.2)
    ensures r.Some? ==> ids == IdsText(r.value.0, r.value.1, r.value.2)
  {
    match SplitDigits(ids)
    case None => None
    case Some((guildId, rest)) =>
      match SplitDigits(rest)
      case None => None
      case Some((channelId, messageId)) =>
        if IsDigits(messageId) then Some((guildId, channelId, messageId)) else None
  }

  /**
   * `reason.match(msgRegex)`. The pattern is anchored and its digit runs
   * cannot contain `/`, so at most one way of matching exists and no
   * backtracking choice matters.
   */
  function MatchLink(s: string): (r: Option<MessageLink>)
    ensures r.Some? ==> ValidLink(r.value) && s == FormatLink(r.value)
  {
    if !StartsWith(s, Scheme) then None
    else
      var split := SplitPrefix(s[|Scheme|..]);
      if !StartsWith(split.1, ChannelsPath) then None
      else
        match MatchIds(split.1[|ChannelsPath|..])
        case None => None
        case Some((guildId, channelId, messageId)) =>
          var l := MessageLink(split.0, guildId, channelId, messageId);
          LinkParts(s, split.0, split.1, l);
          Some(l)
  }

  lemma LinkParts(s: string, prefix: LinkPrefix, afterPrefix: string, l: MessageLink)
    requires StartsWith(s, Scheme) && s[|Scheme|..] == PrefixText(prefix) + afterPrefix
    requires StartsWith(afterPrefix, ChannelsPath) && l.prefix == prefix
    requires afterPrefix[|ChannelsPath|..] == IdsText(l.guildId, l.channelId, l.messageId)
    ensures s == FormatLink(l)
  {
    assert s == Scheme + s[|Scheme|..];
    assert afterPrefix == ChannelsPath + afterPrefix[|ChannelsPath|..];
  }

  /** Every well-formed link is matched, and the match gives back its parts. */
  lemma {:induction false} MatchFormatLink(l: MessageLink)
    requires ValidLink(l)
    ensures MatchLink(FormatLink(l)) == Some(l)
  {
    var s := FormatLink(l);
    var ids := IdsText(l.guildId, l.channelId, l.messageId);
    var tail := ChannelsPath + ids;
    assert StartsWith(s, Scheme);
    assert s[|Scheme|..] == PrefixText(l.prefix) + tail;
    SplitPrefixOf(l.prefix, tail);
    assert StartsWith(tail, ChannelsPath) && tail[|ChannelsPath|..] == ids;
    MatchIdsOf(l.guildId, l.channelId, l.messageId);
  }

  /** A text starting with `discord.com` is never taken for a subdomain prefix. */
  lemma SplitPrefixOf(p: LinkPrefix, tail: string)
    requires StartsWith(tail, ChannelsPath)
    ensures SplitPrefix(PrefixText(p) + tail) == (p, tail)
  {
    var s := PrefixText(p) + tail;
    assert tail[0] == 'd';
    match p
    case Stable =>
      assert s == tail;
      assert !StartsWith(s, "canary.") && !StartsWith(s, "ptb.");
    case Canary =>
      assert s[..7] == "canary.";
      assert s[7..] == tail;
    case Ptb =>
      assert s[..4] == "ptb.";
      assert !StartsWith(s, "canary.") by { assert s[0] != 'c'; }
      assert s[4..] == tail;
  }

  lemma MatchIdsOf(g: string, c: string, m: string)
    requires IsDigits(g) && IsDigits(c) && IsDigits(m)
    ensures MatchIds(IdsText(g, c, m)) == Some((g, c, m))
  {
    var t := c + ("/" + m);
    var s := g + ("/" + t);
    DigitRunOf(g, t);
    assert s[..|g|] == g && s[|g| + 1..] == t;
    DigitRunOf(c, m);
    assert t[..|c|] == c && t[|c| + 1..] == m;
  }

  /** What the match hands on: `[, channelId, messageId]`. */
  lemma MatchedIds(s: string, l: MessageLink)
    requires ValidLink(l) && s == FormatLink(l)
    ensures MatchLink(s).Some? && MatchLink(s).value.channelId == l.channelId
    ensures MatchLink(s).value.messageId == l.messageId
  {
    MatchFormatLink(l);
  }

  // ---------------------------------------------------------------------
  // The URL search /https?:\/\/\S+/ and `parseDesc`
  // ---------------------------------------------------------------------

  /** Length of the longest prefix of `s` without whitespace: what a greedy `\S+` takes. */
  function NonSpaceRun(s: string): (n: nat)
    ensures n <= |s|
    ensures forall i :: 0 <= i < n ==> !IsSpace(s[i])
    ensures n < |s| ==> IsSpace(s[n])
  {
    if s != [] && !IsSpace(s[0]) then 1 + NonSpaceRun(s[1..]) else 0
  }

  /** The scheme text at position `i`, followed by a character `\S` accepts. */
  predicate SchemeAt(s: string, i: nat, scheme: string) {
    i + |scheme| < |s| && s[i..i + |scheme|] == scheme && !IsSpace(s[i + |scheme|])
  }

  /** The length of `https?://` where the pattern can start at position `i`, else 0. */
  function SchemeLength(s: string, i: nat): (n: nat)
    ensures n == 0 || n == 7 || n == 8
    ensures n > 0 ==> i + n < |s| && !IsSpace(s[i + n])
  {
    if SchemeAt(s, i, "https://") then 8
    else if SchemeAt(s, i, "http://") then 7
    else 0
  }

  /** The end of the match of the pattern at position `i`, if it matches there. */
  function UrlEndAt(s: string, i: nat): (r: Option<nat>)
    requires i <= |s|
    ensures r.Some? ==> i < r.value <= |s|
  {
    var n := SchemeLength(s, i);
    if n == 0 then None else Some(i + n + NonSpaceRun(s[i + n..]))
  }

  /** The leftmost match at or after `from`, as (start, end). */
  function FindUrl(s: string, from: nat): (r: Option<(nat, nat)>)
    requires from <= |s|
    decreases |s| - from
    ensures r.Some? ==> from <= r.value.0 < r.value.1 <= |s| && UrlEndAt(s, r.value.0) == Some(r.value.1)
    ensures r.Some? ==> forall p :: from <= p < r.value.0 ==> UrlEndAt(s, p).None?
    ensures r.None? ==> forall p :: from <= p <= |s| ==> UrlEndAt(s, p).None?
  {
    match UrlEndAt(s, from)
    case Some(j) => Some((from, j))
    case None => if from == |s| then None else FindUrl(s, from + 1)
  }

  /** Characters equal to those after a scheme occurrence form one too. */
  lemma SameSchemeAt(s: string, p: nat, i: nat, scheme: string)
    requires SchemeAt(s, i, scheme) && p + |scheme| < |s|
    requires s[p..p + |scheme| + 1] == s[i..i + |scheme| + 1]
    ensures SchemeAt(s, p, scheme)
  {
    var m := |scheme|;
    assert s[p + m] == s[p..p + m + 1][m] == s[i..i + m + 1][m] == s[i + m];
    assert s[p..p + m] == s[p..p + m + 1][..m] == s[i..i + m + 1][..m] == s[i..i + m];
  }

  /** The scheme's own characters are not whitespace. */
  lemma SchemeNotSpace(s: string, i: nat)
    requires SchemeLength(s, i) > 0
    ensures forall k :: i <= k < i + SchemeLength(s, i) ==> !IsSpace(s[k])
  {
    var n := SchemeLength(s, i);
    var scheme := if n == 8 then "https://" else "http://";
    assert s[i..i + n] == scheme;
    forall k | i <= k < i + n ensures !IsSpace(s[k]) {
      assert s[k] == s[i..i + n][k - i];
    }
  }

  /**
   * The URL the search finds is the leftmost stretch that starts with the
   * scheme and runs to the next whitespace: it holds no whitespace and is
   * followed by whitespace or the end of the text.
   */
  lemma {:induction false} UrlIsMaximal(s: string)
    requires FindUrl(s, 0).Some?
    ensures var (i, j) := FindUrl(s, 0).value;
      && i + 7 < j
      && (s[i..i + 8] == "https://" || s[i..i + 7] == "http://")
      && (forall k :: i <= k < j ==> !IsSpace(s[k]))
      && (j == |s| || IsSpace(s[j]))
  {
    var (i, j) := FindUrl(s, 0).value;
    MatchIsMaximal(s, i, j);
  }

  /** A match of the pattern at `i` ending at `j`: the scheme, then non-space characters up to whitespace or the end. */
  lemma MatchIsMaximal(s: string, i: nat, j: nat)
    requires i <= |s| && UrlEndAt(s, i) == Some(j)
    ensures i + 7 <= i + SchemeLength(s, i) < j
    ensures s[i..i + 8] == "https://" || s[i..i + 7] == "http://"
    ensures forall k :: i <= k < j ==> !IsSpace(s[k])
    ensures j == |s| || IsSpace(s[j])
  {
    var n := SchemeLength(s, i);
    SchemeNotSpace(s, i);
    NonSpaceRunIn(s, i + n);
    assert s[i + n..][0] == s[i + n];
  }

  /** The greedy run starting at `start`, in positions of `s`. */
  lemma NonSpaceRunIn(s: string, start: nat)
    requires start <= |s|
    ensures var end := start + NonSpaceRun(s[start..]);
      && end <= |s|
      && (forall k :: start <= k < end ==> !IsSpace(s[k]))
      && (end == |s| || IsSpace(s[end]))
  {
    var rest := s[start..];
    var run := NonSpaceRun(rest);
    forall k | start <= k < start + run ensures !IsSpace(s[k]) {
      assert s[k] == rest[k - start];
    }
    if start + run < |s| {
      assert s[start + run] == rest[run];
    }
  }

  /**
   * The text the search found cannot occur earlier: an earlier copy would
   * itself be a match of the pattern, further left. So `replace` with the
   * found text removes exactly the found occurrence.
   */
  lemma {:induction false} FirstOccurrenceIsMatch(s: string)
    requires FindUrl(s, 0).Some?
    ensures var (i, j) := FindUrl(s, 0).value;
      IndexOfFrom(s, s[i..j], 0) == Some(i)
  {
    var (i, j) := FindUrl(s, 0).value;
    var url := s[i..j];
    assert OccursAt(s, url, i);
    var p := IndexOfFrom(s, url, 0).value;
    if p < i {
      EarlierCopyMatches(s, i, j, p);
      assert false;
    }
  }

  /** A copy of a match's text at an earlier position is itself a match there. */
  lemma EarlierCopyMatches(s: string, i: nat, j: nat, p: nat)
    requires i <= |s| && UrlEndAt(s, i) == Some(j)
    requires p < i && OccursAt(s, s[i..j], p)
    ensures UrlEndAt(s, p).Some?
  {
    var n := SchemeLength(s, i);
    assert n + 1 <= j - i by {
      assert s[i + n..][0] == s[i + n];
    }
    CopyPrefix(s, p, i, j - i, n + 1);
    SchemeCopy(s, p, i);
  }

  /** The scheme and the character after it, copied to an earlier position, start a match there too. */
  lemma SchemeCopy(s: string, p: nat, i: nat)
    requires SchemeLength(s, i) > 0 && p + SchemeLength(s, i) < |s|
    requires s[p..p + SchemeLength(s, i) + 1] == s[i..i + SchemeLength(s, i) + 1]
    ensures SchemeLength(s, p) > 0
  {
    var n := SchemeLength(s, i);
    var scheme := if n == 8 then "https://" else "http://";
    assert SchemeAt(s, i, scheme);
    SameSchemeAt(s, p, i, scheme);
  }

  /** Two equal stretches of `s` agree on their first `c` characters. */
  lemma CopyPrefix(s: string, p: nat, i: nat, len: nat, c: nat)
    requires p + len <= |s| && i + len <= |s| && c <= len
    requires s[p..p + len] == s[i..i + len]
    ensures s[p..p + c] == s[i..i + c]
  {
    forall k | p <= k < p + c
      ensures s[k] == s[i + (k - p)]
    {
      assert s[k] == s[p..p + len][k - p];
    }
  }

  /** How the HEAD request on the found URL goes. */
  datatype HeadAnswer = ContentImage | ContentOther | HeadFailed

  /** What `parseDesc` resolves to, or that it rejected (the HEAD request failed). */
  datatype Parsed = Parsed(desc: Option<string>, image: Option<string>) | ParseThrew

  /** `parseDesc(description)`, with `head` the answer to the HEAD request it may send. */
  function ParseDesc(description: Option<string>, head: HeadAnswer): Parsed
  {
    if description.None? || description.value == "" then Parsed(None, None)
    else
      var s := description.value;
      match FindUrl(s, 0)
      case None => Parsed(Some(s), None)
      case Some((i, j)) =>
        var url := s[i..j];
        match head
        case HeadFailed => ParseThrew
        case ContentOther => Parsed(None, None)
        case ContentImage => Parsed(Some(Trim(ReplaceFirst(s, url, ""))), Some(url))
  }

  /** An absent or empty description yields neither text nor image; a text without a URL is kept whole. */
  lemma ParseDescWithoutUrl(description: Option<string>, head: HeadAnswer)
    requires description.None? || description == Some("") || FindUrl(description.value, 0).None?
    ensures description.None? || description == Some("") ==> ParseDesc(description, head) == Parsed(None, None)
    ensures description.Some? && description.value != "" ==> ParseDesc(description, head) == Parsed(description, None)
  {
  }

  /**
   * With a URL, the HEAD answer decides: an image takes the URL out of the
   * text (its only copy before it, so exactly the found stretch) and trims
   * what is left; any other content type drops both; a failed request
   * rejects.
   */
  lemma ParseDescWithUrl(s: string, head: HeadAnswer)
    requires FindUrl(s, 0).Some?
    ensures var (i, j) := FindUrl(s, 0).value;
      match head
      case ContentImage => ParseDesc(Some(s), head) == Parsed(Some(Trim(s[..i] + s[j..])), Some(s[i..j]))
      case ContentOther => ParseDesc(Some(s), head) == Parsed(None, None)
      case HeadFailed => ParseDesc(Some(s), head) == ParseThrew
  {
    assert s != "";
    if head == ContentImage {
      RemoveFoundUrl(s);
    }
  }

  /** Replacing the found URL by the empty string cuts out exactly the found stretch. */
  lemma RemoveFoundUrl(s: string)
    requires FindUrl(s, 0).Some?
    ensures var (i, j) := FindUrl(s, 0).value;
      ReplaceFirst(s, s[i..j], "") == s[..i] + s[j..]
  {
    var (i, j) := FindUrl(s, 0).value;
    FirstOccurrenceIsMatch(s);
    assert s[..i] + "" + s[i + |s[i..j]|..] == s[..i] + s[j..];
  }

  // ---------------------------------------------------------------------
  // `buildAwardEmbed`
  // ---------------------------------------------------------------------

  /** The first attachment of the linked message. */
  datatype Attachment = Attachment(url: string, contentType: Option<string>)

  /** What fetching the message a link reason points at gives. */
  datatype LinkedMessage =
    | NotTextChannel      // the channel fetch gave nothing, or a channel without messages
    | MessageNotFound     // the message fetch failed with code 10008
    | FetchFailed         // the message fetch failed otherwise (logged only)
    | Message(content: Option<string>, attachment: Option<Attachment>)

  /** One row of `awards` as the embed reads it. */
  datatype AwardRow = AwardRow(awardType: string, reason: Option<string>, awardedBy: string)

  /** The network's answers for one award: the linked message, and the HEAD answer for a URL in the text parsed. */
  datatype Lookup = Lookup(linked: LinkedMessage, head: HeadAnswer)

  /** The embed fields the model keeps (footer and timestamp are cosmetic). */
  datatype Embed = Embed(title: string, color: nat, description: Option<string>, image: Option<string>)

  datatype Built = Built(embed: Embed) | BuildThrew

  const NotFoundText: string := "*Linked message not found.*"
  const OriginalPrefix: string := "*Original Message: *"
  const UnknownTitle: string := "Unknown Award"

  /** Description and image for a reason that is a message link (the try block and what follows it). */
  function LinkedDescription(link: string, linked: LinkedMessage, head: HeadAnswer): (string, Option<string>)
  {
    match linked
    case MessageNotFound => (NotFoundText, None)
    case NotTextChannel => (OriginalPrefix + link + "\n\n" + "", None)
    case FetchFailed => (OriginalPrefix + link + "\n\n" + "", None)
    case Message(content, attachment) =>
      match ParseDesc(content, head)
      case ParseThrew => (OriginalPrefix + link + "\n\n" + "", None)  // caught: no 10008 code
      case Parsed(desc, image) =>
        var image' :=
          if image.None? && attachment.Some? && attachment.value.contentType.Some?
             && StartsWith(attachment.value.contentType.value, "image")
          then Some(attachment.value.url) else image;
        (OriginalPrefix + link + "\n\n" + desc.GetOr(""), image')
  }

  /**
   * A missing message gives the not-found text; otherwise the text quotes the
   * link, and a failure of the HEAD request inside is swallowed. The image
   * is the one in the text, else an image attachment.
   */
  lemma LinkedDescriptionCases(link: string, linked: LinkedMessage, head: HeadAnswer)
    ensures linked == MessageNotFound ==> LinkedDescription(link, linked, head) == (NotFoundText, None)
    ensures linked.NotTextChannel? || linked.FetchFailed? || (linked.Message? && ParseDesc(linked.content, head).ParseThrew?) ==>
      LinkedDescription(link, linked, head) == (OriginalPrefix + link + "\n\n", None)
    ensures linked.Message? && ParseDesc(linked.content, head).Parsed? ==>
      var p := ParseDesc(linked.content, head);
      var a := linked.attachment;
      && LinkedDescription(link, linked, head).0 == OriginalPrefix + link + "\n\n" + p.desc.GetOr("")
      && LinkedDescription(link, linked, head).1 ==
           if p.image.None? && a.Some? && a.value.contentType.Some? && StartsWith(a.value.contentType.value, "image")
           then Some(a.value.url) else p.image
    ensures linked != MessageNotFound ==> StartsWith(LinkedDescription(link, linked, head).0, OriginalPrefix + link + "\n\n")
    ensures linked.Message? && ParseDesc(linked.content, head).Parsed? && ParseDesc(linked.content, head).image.Some? ==>
      LinkedDescription(link, linked, head).1 == ParseDesc(linked.content, head).image
    ensures LinkedDescription(link, linked, head).1.Some? ==>
      linked.Message? && ParseDesc(linked.content, head).Parsed?
  {
    var pre := OriginalPrefix + link + "\n\n";
    assert pre + "" == pre;
    assert (pre + "")[..|pre|] == pre;
    if linked.Message? && ParseDesc(linked.content, head).Parsed? {
      var d := ParseDesc(linked.content, head).desc.GetOr("");
      assert (pre + d)[..|pre|] == pre;
    }
  }

  /**
   * The description and image the reason yields: a message link goes through
   * the linked message, anything else straight through `parseDesc`.
   */
  function ReasonParts(reason: Option<string>, lookup: Lookup): Parsed
  {
    if reason.Some? && MatchLink(reason.value).Some? then
      var (d, i) := LinkedDescription(reason.value, lookup.linked, lookup.head);
      Parsed(Some(d), i)
    else
      ParseDesc(reason, lookup.head)
  }

  /** Only a plain-text reason whose URL's HEAD request fails makes the embed throw; a link reason never does. */
  lemma ReasonThrows(reason: Option<string>, lookup: Lookup)
    ensures ReasonParts(reason, lookup).ParseThrew? <==>
      reason.Some? && MatchLink(reason.value).None? && ParseDesc(reason, lookup.head).ParseThrew?
  {
    if reason.Some? && MatchLink(reason.value).Some? {
      var (d, i) := LinkedDescription(reason.value, lookup.linked, lookup.head);
      assert ReasonParts(reason, lookup) == Parsed(Some(d), i);
    }
  }

  /** `parseDesc` rejects exactly when the text holds a URL and the HEAD request on it fails. */
  lemma ParseDescThrows(description: Option<string>, head: HeadAnswer)
    ensures ParseDesc(description, head).ParseThrew? <==>
      description.Some? && FindUrl(description.value, 0).Some? && head == HeadFailed
  {
    if description == Some("") {
      assert FindUrl("", 0).None? by {
        assert UrlEndAt("", 0).None?;
      }
    }
  }

  /** `buildAwardEmbed(award)`. */
  function BuildAwardEmbed(award: AwardRow, lookup: Lookup): Built
  {
    match ReasonParts(award.reason, lookup)
    case ParseThrew => BuildThrew
    case Parsed(desc, image) =>
      var awardType := FindAward(award.awardType);
      var title := if awardType.Some? then awardType.value.name else UnknownTitle;
      var color := if awardType.Some? then awardType.value.color else MaxColor;
      if desc.Some? && TrimEnd(desc.value) == "" then
        // `setDescription('')` fails the builder's minimum-length check
        BuildThrew
      else
        var description := if desc.Some? then Some(TrimEnd(desc.value)) else None;
        Built(Embed(title, color, description, image))
  }

  /**
   * The embed carries the catalogue's name and colour for a known type and
   * "Unknown Award" in white otherwise, a description without trailing
   * whitespace, and the image the reason yields; it throws exactly when the
   * reason does or when the description is nothing but whitespace.
   */
  lemma BuildAwardEmbedSpec(award: AwardRow, lookup: Lookup)
    ensures var p := ReasonParts(award.reason, lookup);
      BuildAwardEmbed(award, lookup).BuildThrew? <==>
        p.ParseThrew? || (p.desc.Some? && TrimEnd(p.desc.value) == "")
    ensures var r := BuildAwardEmbed(award, lookup);
      r.Built? ==>
        && r.embed.color <= MaxColor
        && (FindAward(award.awardType).None? ==> r.embed.title == UnknownTitle && r.embed.color == MaxColor)
        && (FindAward(award.awardType).Some? ==>
              r.embed.title == FindAward(award.awardType).value.name && r.embed.color == FindAward(award.awardType).value.color)
        && (r.embed.description.Some? ==>
              r.embed.description.value != "" && TrimEnd(r.embed.description.value) == r.embed.description.value)
        && r.embed.description ==
             (if ReasonParts(award.reason, lookup).desc.Some?
              then Some(TrimEnd(ReasonParts(award.reason, lookup).desc.value)) else None)
        && r.embed.image == ReasonParts(award.reason, lookup).image
  {
    ColorsBounded();
    var p := ReasonParts(award.reason, lookup);
    if p.Parsed? {
      TrimEndIdempotent(p.desc);
    }
  }

  lemma TrimEndIdempotent(desc: Option<string>)
    ensures desc.Some? ==> TrimEnd(TrimEnd(desc.value)) == TrimEnd(desc.value)
  {
    if desc.Some? {
      var t := TrimEnd(desc.value);
      if t != [] {
        assert !IsSpace(t[|t| - 1]);
      }
    }
  }

  /** A reason of blanks only reaches the builder as an empty description, which it rejects. */
  lemma BlankReasonThrows(award: AwardRow, lookup: Lookup)
    requires award.reason.Some? && award.reason.value != ""
    requires forall k :: 0 <= k < |award.reason.value| ==> IsSpace(award.reason.value[k])
    ensures BuildAwardEmbed(award, lookup) == BuildThrew
  {
    var s := award.reason.value;
    assert !StartsWith(s, Scheme) by {
      NoSchemeAtSpace(s, 0, Scheme);
    }
    forall p | 0 <= p <= |s|
      ensures UrlEndAt(s, p).None?
    {
      if p < |s| {
        NoSchemeAtSpace(s, p, "https://");
        NoSchemeAtSpace(s, p, "http://");
      }
    }
    assert FindUrl(s, 0).None?;
    ParseDescWithoutUrl(award.reason, lookup.head);
  }

  /** No text that starts with a non-blank character starts at a blank. */
  lemma NoSchemeAtSpace(s: string, p: nat, scheme: string)
    requires p < |s| && IsSpace(s[p]) && scheme != [] && !IsSpace(scheme[0])
    ensures !SchemeAt(s, p, scheme)
    ensures p == 0 ==> !StartsWith(s, scheme)
  {
    if p + |scheme| <= |s| {
      assert s[p..p + |scheme|][0] == s[p];
    }
  }

  /**
   * A reason that is nothing but one image URL leaves an empty description
   * once the URL is cut out, so its embed throws instead of showing the image.
   */
  lemma ImageOnlyReasonThrows(award: AwardRow, lookup: Lookup)
    requires award.reason.Some? && MatchLink(award.reason.value).None?
    requires FindUrl(award.reason.value, 0) == Some((0, |award.reason.value|))
    requires lookup.head == ContentImage
    ensures BuildAwardEmbed(award, lookup) == BuildThrew
  {
    var s := award.reason.value;
    ParseDescWithUrl(s, lookup.head);
    assert s[..0] + s[|s|..] == "";
  }

  /** A link to a missing message shows the not-found text and no image. */
  lemma MissingMessageText(award: AwardRow, lookup: Lookup)
    requires award.reason.Some? && MatchLink(award.reason.value).Some?
    requires lookup.linked == MessageNotFound
    ensures BuildAwardEmbed(award, lookup).Built?
    ensures BuildAwardEmbed(award, lookup).embed.description == Some(NotFoundText)
    ensures BuildAwardEmbed(award, lookup).embed.image == None
  {
    LinkedDescriptionCases(award.reason.value, lookup.linked, lookup.head);
    assert ReasonParts(award.reason, lookup) == Parsed(Some(NotFoundText), None);
    NotFoundTextTrimmed();
    BuildAwardEmbedSpec(award, lookup);
  }

  lemma NotFoundTextTrimmed()
    ensures TrimEnd(NotFoundText) == NotFoundText != ""
  {
    assert !IsSpace(NotFoundText[|NotFoundText| - 1]);
  }

  // ---------------------------------------------------------------------
  // `execute` of `/award list`
  // ---------------------------------------------------------------------

  /** The newest awards are shown, at most this many. */
  const MaxShown: nat := 5

  /** One award row as the list query returns it, with the network's answers for its embed. */
  datatype Listed = Listed(award: AwardRow, lookup: Lookup)

  /** The embed (or the exception) `buildAwardEmbed` gives for one listed row. */
  function EmbedOf(l: Listed): Built {
    BuildAwardEmbed(l.award, l.lookup)
  }

  datatype ListReply =
    | NoAwards(user: string)
    | LastAwards(user: string, embeds: seq<Embed>)
    | ListThrew

  function Min(a: nat, b: nat): nat { if a <= b then a else b }

  /** What `buildAwardEmbed` gives for each row, in row order. */
  function Builds(rows: seq<Listed>): (r: seq<Built>)
    ensures |r| == |rows|
  {
    seq(|rows|, i requires 0 <= i < |rows| => EmbedOf(rows[i]))
  }

  /** The embeds of the first `n` results, taken in order; None once one of them is an exception. */
  function Shown(builds: seq<Built>, n: nat): Option<seq<Embed>>
    requires n <= |builds|
  {
    if n == 0 then Some([])
    else match Shown(builds, n - 1)
      case None => None
      case Some(es) =>
        match builds[n - 1]
        case BuildThrew => None
        case Built(e) => Some(es + [e])
  }

  /** Taking the first `n` results fails exactly when one of them is an exception. */
  lemma {:induction false} ShownThrows(builds: seq<Built>, n: nat)
    requires n <= |builds|
    ensures Shown(builds, n).None? <==> exists i :: 0 <= i < n && builds[i].BuildThrew?
  {
    if n > 0 {
      ShownThrows(builds, n - 1);
      if builds[n - 1].BuildThrew? {
        assert Shown(builds, n).None?;
      }
    }
  }

  /** Otherwise there is one embed per result, in order. */
  lemma {:induction false} ShownBuilt(builds: seq<Built>, n: nat)
    requires n <= |builds| && Shown(builds, n).Some?
    ensures |Shown(builds, n).value| == n
    ensures forall i :: 0 <= i < n ==> builds[i] == Built(Shown(builds, n).value[i])
  {
    if n > 0 {
      ShownBuilt(builds, n - 1);
    }
  }

  /** Once a result has been an exception, taking more results still fails. */
  lemma {:induction false} ShownStaysNone(builds: seq<Built>, n: nat, m: nat)
    requires n <= m <= |builds| && Shown(builds, n).None?
    ensures Shown(builds, m).None?
    decreases m - n
  {
    if n < m {
      ShownStaysNone(builds, n + 1, m);
    }
  }

  /**
   * `execute`: no rows gives the no-awards reply; otherwise the embeds of the
   * first min(5, rows) rows, built in order, unless building one of them
   * throws.
   */
  method ListAwards(user: string, rows: seq<Listed>) returns (reply: ListReply)
    ensures |rows| == 0 ==> reply == NoAwards(user)
    ensures |rows| > 0 ==>
      match Shown(Builds(rows), Min(MaxShown, |rows|))
      case None => reply == ListThrew
      case Some(embeds) => reply == LastAwards(user, embeds)
  {
    if |rows| <= 0 {
      return NoAwards(user);
    }
    ghost var builds := Builds(rows);
    var embeds: seq<Embed> := [];
    var displayCount := Min(MaxShown, |rows|);
    for i := 0 to displayCount
      invariant Shown(builds, i) == Some(embeds)
    {
      var built := EmbedOf(rows[i]);
      assert builds[i] == built;
      if built.BuildThrew? {
        ShownStaysNone(builds, i + 1, displayCount);
        return ListThrew;
      }
      embeds := embeds + [built.embed];
    }
    return LastAwards(user, embeds);
  }

  /**
   * The reply in the source's terms: no awards exactly when there are no
   * rows; an exception exactly when building one of the first five rows
   * throws; otherwise one embed per shown row, each that row's, in order.
   */
  lemma ListAwardsReply(user: string, rows: seq<Listed>, reply: ListReply)
    requires |rows| == 0 ==> reply == NoAwards(user)
    requires |rows| > 0 ==>
      match Shown(Builds(rows), Min(MaxShown, |rows|))
      case None => reply == ListThrew
      case Some(embeds) => reply == LastAwards(user, embeds)
    ensures reply.NoAwards? <==> |rows| == 0
    ensures reply.ListThrew? <==>
      |rows| > 0 && exists i :: 0 <= i < Min(MaxShown, |rows|) && Builds(rows)[i].BuildThrew?
    ensures reply.LastAwards? ==>
      reply.user == user && 0 < |reply.embeds| == Min(MaxShown, |rows|) <= MaxShown
      && forall i :: 0 <= i < |reply.embeds| ==> Builds(rows)[i] == Built(reply.embeds[i])
  {
    if |rows| > 0 {
      var n := Min(MaxShown, |rows|);
      ShownThrows(Builds(rows), n);
      if Shown(Builds(rows), n).Some? {
        ShownBuilt(Builds(rows), n);
      }
    }
  }
}
