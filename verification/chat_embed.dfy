/** The chat panel (src/components/ChatEmbed.tsx): the address of the
    embedded Twitch or YouTube chat for the selected platform, and a reader
    that takes such an address apart again. The browser window is an input:
    `None` while rendering on the server. */
module ChatEmbed {
  import opened Wrappers
  import opened Text
  import opened Platforms

  const TwitchChatPrefix := "https://www.twitch.tv/embed/"
  const TwitchChatInfix := "/chat?parent="
  const YouTubeChatPrefix := "https://www.youtube.com/live_chat?v="
  const YouTubeChatInfix := "&embed_domain="
  /** The video id used when none is given. */
  const DefaultVideo := "live_stream"

  /** `typeof window !== 'undefined' ? window.location.hostname : 'localhost'`:
      without a window the host is `localhost`; with one, its host name is
      used as it is, even when empty. */
  function Hostname(window: Option<string>): (h: string)
    ensures window.None? ==> h == "localhost"
    ensures window.Some? ==> h == window.value
  {
    match window
    case None => "localhost"
    case Some(h) => h
  }

  /** `youtubeVideoId || 'live_stream'`. */
  function VideoOrDefault(youtubeVideoId: Option<string>): (id: string)
    ensures id != ""
    ensures youtubeVideoId.GetOr("") == "" ==> id == DefaultVideo
    ensures youtubeVideoId.GetOr("") != "" ==> id == youtubeVideoId.value
  {
    if youtubeVideoId.GetOr("") != "" then youtubeVideoId.value else DefaultVideo
  }

  /** `getChatUrl()` for the current platform. */
  function ChatUrl(current: Platform, twitchChannel: string, youtubeVideoId: Option<string>,
                   window: Option<string>): string
  {
    match current
    case TwitchPlatform => TwitchChatPrefix + twitchChannel + TwitchChatInfix + Hostname(window)
    case YouTubePlatform => YouTubeChatPrefix + VideoOrDefault(youtubeVideoId) + YouTubeChatInfix + Hostname(window)
  }

  /** What a chat address names: the platform, the Twitch channel or YouTube
      video, and the embedding host. */
  datatype ChatTarget = ChatTarget(platform: Platform, id: string, host: string)

  /** Splits `rest` at the first `infix` into the part before and after. */
  function SplitAt(rest: string, infix: string): Option<(string, string)> {
    match IndexOf(rest, infix)
    case None => None
    case Some(i) => Some((rest[..i], rest[i + |infix|..]))
  }

  predicate StartsWith(s: string, prefix: string) {
    |prefix| <= |s| && s[..|prefix|] == prefix
  }

  /** Reads a chat address back into its target; `None` for anything that
      is not a chat address. */
  function ParseChatUrl(url: string): Option<ChatTarget> {
    if StartsWith(url, TwitchChatPrefix) then
      match SplitAt(url[|TwitchChatPrefix|..], TwitchChatInfix)
      case None => None
      case Some((channel, host)) => Some(ChatTarget(TwitchPlatform, channel, host))
    else if StartsWith(url, YouTubeChatPrefix) then
      match SplitAt(url[|YouTubeChatPrefix|..], YouTubeChatInfix)
      case None => None
      case Some((video, host)) => Some(ChatTarget(YouTubePlatform, video, host))
    else None
  }

  /** A prefix, a name free of the infix's first character, the infix and a
      tail are split back into the name and the tail. */
  lemma SplitAfterPrefix(prefix: string, name: string, infix: string, tail: string)
    requires |infix| > 0 && infix[0] !in name
    ensures var url := prefix + name + infix + tail;
      && StartsWith(url, prefix)
      && SplitAt(url[|prefix|..], infix) == Some((name, tail))
  {
    var url := prefix + name + infix + tail;
    assert url[..|prefix|] == prefix;
    var rest := url[|prefix|..];
    assert rest == name + infix + tail;
    FirstOccurrenceAfter(name, infix, tail);
    assert rest[..|name|] == name;
    assert rest[|name| + |infix|..] == tail;
  }

  /** The chat address names the current platform, the Twitch channel or the
      YouTube video (`live_stream` when none is given), and the host. A
      channel must not contain `/`, and a video id not `&`, for the address
      to be read back unambiguously. */
  lemma ChatUrlRoundTrip(current: Platform, twitchChannel: string, youtubeVideoId: Option<string>,
                         window: Option<string>)
    requires current == TwitchPlatform ==> '/' !in twitchChannel
    requires current == YouTubePlatform ==> '&' !in VideoOrDefault(youtubeVideoId)
    ensures ParseChatUrl(ChatUrl(current, twitchChannel, youtubeVideoId, window))
         == Some(ChatTarget(current,
                            if current == TwitchPlatform then twitchChannel else VideoOrDefault(youtubeVideoId),
                            Hostname(window)))
  {
    match current
    case TwitchPlatform =>
      SplitAfterPrefix(TwitchChatPrefix, twitchChannel, TwitchChatInfix, Hostname(window));
    case YouTubePlatform =>
      var url := ChatUrl(current, twitchChannel, youtubeVideoId, window);
      SplitAfterPrefix(YouTubeChatPrefix, VideoOrDefault(youtubeVideoId), YouTubeChatInfix, Hostname(window));
      PrefixesExclusive(url);
  }

  /** No address starts with both chat prefixes. */
  lemma PrefixesExclusive(url: string)
    requires StartsWith(url, YouTubeChatPrefix)
    ensures !StartsWith(url, TwitchChatPrefix)
  {
    assert url[..|YouTubeChatPrefix|][12] == 'y';
    if |TwitchChatPrefix| <= |url| {
      assert url[..|TwitchChatPrefix|][12] == url[12];
    }
  }

  /** On Twitch the YouTube video id plays no part. */
  lemma TwitchChatIgnoresVideo(twitchChannel: string, a: Option<string>, b: Option<string>, window: Option<string>)
    ensures ChatUrl(TwitchPlatform, twitchChannel, a, window) == ChatUrl(TwitchPlatform, twitchChannel, b, window)
  {
  }

  /** After a switch button is clicked the chat shown is the chosen
      platform's. */
  lemma ChatFollowsClick(t: Toggle, choice: Platform, hasCallback: bool, twitchChannel: string,
                         youtubeVideoId: Option<string>, window: Option<string>)
    requires choice == TwitchPlatform ==> '/' !in twitchChannel
    requires choice == YouTubePlatform ==> '&' !in VideoOrDefault(youtubeVideoId)
    ensures var shown := Step(t, Clicked(choice), hasCallback).state.current;
      var target := ParseChatUrl(ChatUrl(shown, twitchChannel, youtubeVideoId, window));
      target.Some? && target.value.platform == choice
  {
    ChatUrlRoundTrip(choice, twitchChannel, youtubeVideoId, window);
  }
}
