/** The Discord webhook notifications (src/lib/discord.ts): the
    configuration read from the environment with its defaults, the four
    messages the site sends (a Twitch stream going live, a YouTube stream
    going live, a new YouTube video and a scheduled stream), and the send
    step, whose POST is an input. The current time, and the formatted date
    and time of a scheduled stream, are inputs too. */
module Discord {
  import opened Wrappers
  import opened Text
  import opened Platforms
  import YouTube
  import Twitch

  const DefaultWebhook := "https://discord.com/api/webhooks/example/placeholder"
  const DefaultName := "NieUmiemGrac"
  const DefaultAvatar := "https://nieumiemgrac.pl/logo.png"
  const DefaultWebsite := "https://nieumiemgrac.pl"
  const DefaultYouTubeChannel := "UCuhEFa4jQBOa5UOAJ52sa0g"

  const TwitchColor := 0x6441a5
  const YouTubeColor := 0xff0000
  const TwitchIcon := "https://static.twitchcdn.net/assets/favicon-32-d6025c14e900565d6177.png"
  const YouTubeIcon := "https://www.youtube.com/s/desktop/3a84d4c0/img/favicon_32.png"

  /** Descriptions of new videos are cut after this many characters. */
  const DescriptionLimit := 200

  const GameLabel := "\U{1F3AE} Gra"
  const ViewersLabel := "\U{1F441}\U{FE0F} Widzowie"
  const WebsiteLabel := "\U{1F310} Oglądaj na stronie"
  const PlatformLabel := "\U{1F4FA} Platforma"
  const DateLabel := "\U{1F4C5} Data"
  const TimeLabel := "\U{23F0} Godzina"
  const JoinUs := "\n\nDołącz do streamu i baw się razem z nami!"

  // ---------------------------------------------------------------------
  // Configuration
  // ---------------------------------------------------------------------

  /** The environment variables read, `None` when unset. */
  datatype Env = Env(
    webhook: Option<string>, name: Option<string>, avatar: Option<string>,
    website: Option<string>, youtubeChannel: Option<string>)

  datatype Config = Config(
    webhook: string, name: string, avatar: string, website: string, youtubeChannel: string)

  /** `process.env.X || default`: an unset or empty variable gives the
      default. */
  function EnvOr(v: Option<string>, default: string): (r: string)
    ensures v.GetOr("") != "" ==> r == v.value
    ensures v.GetOr("") == "" ==> r == default
  {
    if v.GetOr("") != "" then v.value else default
  }

  /** The module's configuration constants: each variable that is set and
      non-empty is used as it is, and every other value is its default.
      None of them can be empty, so the senders' check for a missing
      webhook address never fires. */
  function ConfigOf(env: Env): (c: Config)
    ensures c.webhook != "" && c.name != "" && c.avatar != "" && c.website != "" && c.youtubeChannel != ""
    ensures env.webhook.GetOr("") != "" ==> c.webhook == env.webhook.value
    ensures env.webhook.GetOr("") == "" ==> c.webhook == DefaultWebhook
    ensures env.name.GetOr("") != "" ==> c.name == env.name.value
    ensures env.name.GetOr("") == "" ==> c.name == DefaultName
    ensures env.avatar.GetOr("") != "" ==> c.avatar == env.avatar.value
    ensures env.avatar.GetOr("") == "" ==> c.avatar == DefaultAvatar
    ensures env.website.GetOr("") != "" ==> c.website == env.website.value
    ensures env.website.GetOr("") == "" ==> c.website == DefaultWebsite
    ensures env.youtubeChannel.GetOr("") != "" ==> c.youtubeChannel == env.youtubeChannel.value
    ensures env.youtubeChannel.GetOr("") == "" ==> c.youtubeChannel == DefaultYouTubeChannel
  {
    Config(
      EnvOr(env.webhook, DefaultWebhook), EnvOr(env.name, DefaultName),
      EnvOr(env.avatar, DefaultAvatar), EnvOr(env.website, DefaultWebsite),
      EnvOr(env.youtubeChannel, DefaultYouTubeChannel))
  }

  // ---------------------------------------------------------------------
  // Messages
  // ---------------------------------------------------------------------

  datatype Field = Field(name: string, value: string, inline: bool)
  datatype Author = Author(name: string, url: string, iconUrl: string)
  datatype Footer = Footer(text: string, iconUrl: string)

  datatype Embed = Embed(
    title: string, url: string, color: int, description: string, timestamp: string,
    image: Option<string>, thumbnail: string, author: Author, fields: seq<Field>, footer: Footer)

  datatype Message = Message(username: string, avatarUrl: string, content: string, embeds: seq<Embed>)

  /** The fields of a live Twitch stream the message reads. */
  datatype TwitchStream = TwitchStream(
    userName: string, gameName: string, title: string, viewerCount: nat, thumbnailUrl: string)

  /** The fields of a live YouTube stream the message reads. */
  datatype YouTubeLiveStream = YouTubeLiveStream(
    id: string, title: string, channelId: string, thumbnails: YouTube.Thumbnails)

  /** `WEBSITE_URL.replace('https://', '')`: the first `https://` removed. */
  function SiteLabel(website: string): string {
    ReplaceFirst(website, "https://", "")
  }

  /** A site address starting with `https://` is labelled with the rest. */
  lemma SiteLabelStripsScheme(rest: string)
    ensures SiteLabel("https://" + rest) == rest
  {
    ReplaceFirstAfter("", "https://", rest, "");
    assert "" + "https://" + rest == "https://" + rest;
  }

  /** The "watch on the site" field: a Markdown link to the site. */
  function WebsiteField(c: Config): Field {
    Field(WebsiteLabel, "[" + SiteLabel(c.website) + "](" + c.website + ")", true)
  }

  function SiteFooter(c: Config): Footer {
    Footer(c.name + " - Oficjalna strona", c.avatar)
  }

  /** The part every message shares: the bot's name and avatar, and one
      embed. */
  function Frame(c: Config, content: string, embed: Embed): Message {
    Message(c.name + " Bot", c.avatar, content, [embed])
  }

  /** `thumbnail_url.replace('{width}', '1280').replace('{height}', '720')`. */
  function StreamImage(thumbnailUrl: string): string {
    ReplaceFirst(ReplaceFirst(thumbnailUrl, "{width}", "1280"), "{height}", "720")
  }

  function TwitchChannelUrl(userName: string): string {
    "https://twitch.tv/" + userName
  }

  /** The message for a Twitch stream going live; `timestamp` stands for
      `new Date().toISOString()`. */
  function TwitchStreamMessage(c: Config, s: TwitchStream, timestamp: string): Message {
    Frame(c, "@everyone **" + c.name + " jest teraz na żywo na Twitch!**",
      Embed(
        s.title, TwitchChannelUrl(s.userName), TwitchColor,
        "**" + c.name + "** streamuje **" + s.gameName + "** na Twitch!" + JoinUs,
        timestamp, Some(StreamImage(s.thumbnailUrl)), c.avatar,
        Author(c.name + " na Twitch", TwitchChannelUrl(s.userName), TwitchIcon),
        [Field(GameLabel, s.gameName, true),
         Field(ViewersLabel, NatToString(s.viewerCount), true),
         WebsiteField(c)],
        SiteFooter(c)))
  }

  /** The Twitch stream message links the embed and its author to the
      streamer's channel, shows the stream image at 1280x720 as
      `formatTwitchThumbnailUrl` would fill it, and has the game, a viewer
      count that reads back as the stream's, and the site link. */
  lemma TwitchStreamMessageFacts(c: Config, s: TwitchStream, timestamp: string)
    ensures var m := TwitchStreamMessage(c, s, timestamp);
      && |m.embeds| == 1
      && var e := m.embeds[0];
      && e.url == e.author.url == "https://twitch.tv/" + s.userName
      && e.color == TwitchColor && e.author.iconUrl == TwitchIcon
      && e.image == Some(Twitch.FormatThumbnailUrl(s.thumbnailUrl, 1280, 720))
      && |e.fields| == 3
      && e.fields[0] == Field(GameLabel, s.gameName, true)
      && e.fields[1].name == ViewersLabel
      && AllDigits(e.fields[1].value) && ParseDecimal(e.fields[1].value) == s.viewerCount
      && e.fields[2] == WebsiteField(c)
  {
    StreamNumerals();
  }

  lemma StreamNumerals()
    ensures NatToString(1280) == "1280" && NatToString(720) == "720"
  {
    assert NatToString(1) == "1" && NatToString(12) == "12" && NatToString(128) == "128";
    assert NatToString(7) == "7" && NatToString(72) == "72";
  }

  /** The message for a YouTube stream going live. */
  function YouTubeStreamMessage(c: Config, s: YouTubeLiveStream, timestamp: string): Message {
    Frame(c, "@everyone **" + c.name + " jest teraz na żywo na YouTube!**",
      Embed(
        s.title, "https://youtube.com/watch?v=" + s.id, YouTubeColor,
        "**" + c.name + "** streamuje na YouTube!" + JoinUs,
        timestamp, Some(YouTube.BestThumbnail(s.thumbnails)), c.avatar,
        Author(c.name + " na YouTube", "https://youtube.com/channel/" + s.channelId, YouTubeIcon),
        [Field(PlatformLabel, "YouTube", true), WebsiteField(c)],
        SiteFooter(c)))
  }

  /** The YouTube stream image is the largest thumbnail present: `maxres`,
      else `standard`, else `high`. */
  lemma YouTubeStreamImage(c: Config, s: YouTubeLiveStream, timestamp: string)
    ensures var e := YouTubeStreamMessage(c, s, timestamp).embeds[0];
      && e.image.Some? && e.color == YouTubeColor && |e.fields| == 2
      && (s.thumbnails.maxres.GetOr("") != "" ==> e.image.value == s.thumbnails.maxres.value)
      && (s.thumbnails.maxres.GetOr("") == "" && s.thumbnails.standard.GetOr("") != "" ==>
            e.image.value == s.thumbnails.standard.value)
      && (s.thumbnails.maxres.GetOr("") == "" && s.thumbnails.standard.GetOr("") == "" ==>
            e.image.value == s.thumbnails.high)
  {
  }

  /** `description.length > 200 ? description.substring(0, 200) + '...' :
      description`. */
  function Truncate(description: string): (r: string)
    ensures |description| <= DescriptionLimit ==> r == description
    ensures |description| > DescriptionLimit ==>
      |r| == DescriptionLimit + 3 && r[..DescriptionLimit] == description[..DescriptionLimit]
      && r[DescriptionLimit..] == "..."
  {
    if |description| > DescriptionLimit then description[..DescriptionLimit] + "..." else description
  }

  /** Cutting a cut description again changes nothing, and a cut never
      keeps more than the limit of the original. */
  lemma TruncateIdempotent(description: string)
    ensures Truncate(Truncate(description)) == Truncate(description)
    ensures |Truncate(description)| <= DescriptionLimit + 3
  {
    if |description| > DescriptionLimit {
      var r := Truncate(description);
      assert r[..DescriptionLimit] + "..." == r;
    }
  }

  /** The message for a new YouTube video. */
  function VideoMessage(c: Config, videoTitle: string, videoId: string, thumbnailUrl: string,
                        description: string, timestamp: string): Message {
    Frame(c, "**Nowy film na kanale " + c.name + "!**",
      Embed(
        videoTitle, "https://youtube.com/watch?v=" + videoId, YouTubeColor,
        Truncate(description), timestamp, Some(thumbnailUrl), c.avatar,
        Author(c.name + " na YouTube", "https://youtube.com/channel/" + c.youtubeChannel, YouTubeIcon),
        [], SiteFooter(c)))
  }

  /** The new-video message carries at most 203 characters of the
      description. It shows the description itself exactly when that is
      short enough, or already ends in `...` at the limit. */
  lemma VideoMessageDescription(c: Config, videoTitle: string, videoId: string, thumbnailUrl: string,
                                description: string, timestamp: string)
    ensures var d := VideoMessage(c, videoTitle, videoId, thumbnailUrl, description, timestamp).embeds[0].description;
      && |d| <= DescriptionLimit + 3
      && (d == description <==>
            |description| <= DescriptionLimit ||
            (|description| == DescriptionLimit + 3 && description[DescriptionLimit..] == "..."))
  {
    TruncateIdempotent(description);
    var d := Truncate(description);
    if |description| == DescriptionLimit + 3 && description[DescriptionLimit..] == "..." {
      assert description == description[..DescriptionLimit] + description[DescriptionLimit..];
    }
  }

  /** The colour, name, address and icon of a scheduled stream's
      platform. */
  datatype PlatformMeta = PlatformMeta(color: int, name: string, url: string, icon: string)

  /** The streamer's Twitch channel page, named after the lower-cased
      streamer name. */
  function TwitchPage(c: Config): string {
    "https://twitch.tv/" + Lower(c.name)
  }

  /** The configured YouTube channel page. */
  function YouTubePage(c: Config): string {
    "https://youtube.com/channel/" + c.youtubeChannel
  }

  function MetaOf(c: Config, p: Platform): PlatformMeta {
    match p
    case TwitchPlatform => PlatformMeta(TwitchColor, "Twitch", TwitchPage(c), TwitchIcon)
    case YouTubePlatform => PlatformMeta(YouTubeColor, "YouTube", YouTubePage(c), YouTubeIcon)
  }

  /** Each piece of platform metadata is the Twitch one exactly when the
      platform is Twitch, and the YouTube one exactly when it is YouTube:
      no message mixes the two platforms. */
  lemma MetaConsistent(c: Config, p: Platform)
    ensures var m := MetaOf(c, p);
      && (m.color == TwitchColor <==> p == TwitchPlatform)
      && (m.name == "Twitch" <==> p == TwitchPlatform)
      && (m.icon == TwitchIcon <==> p == TwitchPlatform)
      && (m.url == TwitchPage(c) <==> p == TwitchPlatform)
      && (m.url == YouTubePage(c) <==> p == YouTubePlatform)
      && (m.url[8] == 't' <==> p == TwitchPlatform)
  {
    var m := MetaOf(c, p);
    assert TwitchPage(c)[8] == 't';
    assert YouTubePage(c)[8] == 'y';
    if p == YouTubePlatform {
      assert m.url[8] == 'y';
      assert m.icon == YouTubeIcon;
      assert |YouTubeIcon| != |TwitchIcon|;
    }
  }

  /** `gameTitle ? ... : ...`: a missing or empty title counts as none. */
  predicate HasGame(gameTitle: Option<string>) {
    gameTitle.GetOr("") != ""
  }

  /** The fields of a scheduled stream: date, time, platform, the game when
      there is one, and the site link. */
  function ScheduleFields(c: Config, m: PlatformMeta, date: string, time: string, gameTitle: Option<string>): seq<Field> {
    [Field(DateLabel, date, true), Field(TimeLabel, time, true), Field(PlatformLabel, m.name, true)]
    + (if HasGame(gameTitle) then [Field(GameLabel, gameTitle.value, true)] else [])
    + [WebsiteField(c)]
  }

  /** The message for a scheduled stream; `date` and `time` stand for the
      Polish long date and two-digit time of the scheduled moment. Without a
      game the description has two spaces before "na". */
  function ScheduleMessage(c: Config, p: Platform, title: string, date: string, time: string,
                           gameTitle: Option<string>, timestamp: string): Message {
    var m := MetaOf(c, p);
    Frame(c, "**" + c.name + " zaplanował stream na " + m.name + "!**",
      Embed(
        title, m.url, m.color,
        "**" + c.name + "** będzie streamować " + (if HasGame(gameTitle) then "**" + gameTitle.value + "**" else "")
          + " na " + m.name + "!\n\nZaplanowany czas: **" + date + "** o **" + time
          + "**\n\nDodaj do kalendarza i nie przegap!",
        timestamp, None, c.avatar, Author(c.name + " na " + m.name, m.url, m.icon),
        ScheduleFields(c, m, date, time, gameTitle), SiteFooter(c)))
  }

  /** A scheduled stream's message has five fields with a game and four
      without, in the order date, time, platform, [game], site; its
      colour, name, address and icon all belong to the one platform. */
  lemma ScheduleMessageFacts(c: Config, p: Platform, title: string, date: string, time: string,
                             gameTitle: Option<string>, timestamp: string)
    ensures var e := ScheduleMessage(c, p, title, date, time, gameTitle, timestamp).embeds[0];
      && (|e.fields| == 5 <==> HasGame(gameTitle))
      && (|e.fields| == 4 <==> !HasGame(gameTitle))
      && e.fields[0] == Field(DateLabel, date, true)
      && e.fields[1] == Field(TimeLabel, time, true)
      && e.fields[2].name == PlatformLabel
      && (HasGame(gameTitle) ==> e.fields[3] == Field(GameLabel, gameTitle.value, true))
      && e.fields[|e.fields| - 1] == WebsiteField(c)
      && (e.color == TwitchColor <==> p == TwitchPlatform)
      && (e.author.iconUrl == TwitchIcon <==> p == TwitchPlatform)
      && (e.fields[2].value == "Twitch" <==> p == TwitchPlatform)
      && e.url == e.author.url == MetaOf(c, p).url
      && (e.url == TwitchPage(c) <==> p == TwitchPlatform)
      && (e.url == YouTubePage(c) <==> p == YouTubePlatform)
      && e.image.None?
  {
    MetaConsistent(c, p);
  }

  // ---------------------------------------------------------------------
  // Sending
  // ---------------------------------------------------------------------

  /** The POST the sender makes: the webhook address and the message. */
  datatype Delivery = Delivery(url: string, message: Message)

  /** The result of a sender and the request it made, if any. */
  datatype Sent = Sent(ok: bool, request: Option<Delivery>)

  /** A sender: no request without a webhook address; otherwise the message
      is posted, and the sender reports whether the POST succeeded instead
      of throwing. */
  function Send(c: Config, message: Message, postSucceeds: bool): (s: Sent)
    ensures s.request.Some? <==> c.webhook != ""
    ensures s.request.Some? ==> s.request.value == Delivery(c.webhook, message)
    ensures s.ok <==> c.webhook != "" && postSucceeds
  {
    if c.webhook == "" then Sent(false, None)
    else Sent(postSucceeds, Some(Delivery(c.webhook, message)))
  }

  /** With the configuration read from the environment every sender posts
      to the configured address (the variable when set, else the default)
      and returns exactly the POST's outcome. */
  lemma SendFromEnv(env: Env, message: Message, postSucceeds: bool)
    ensures var c := ConfigOf(env); var s := Send(c, message, postSucceeds);
      && s.ok == postSucceeds
      && s.request == Some(Delivery(c.webhook, message))
      && (env.webhook.GetOr("") != "" ==> s.request.value.url == env.webhook.value)
      && (env.webhook.GetOr("") == "" ==> s.request.value.url == DefaultWebhook)
  {
  }
}
