/** The stream player (src/components/StreamEmbed.tsx): the player address
    for the current platform, computed by an effect after the first render,
    whether the player frame and the switch buttons are shown, and a reader
    for the Twitch player address. */
module StreamEmbed {
  import opened Wrappers
  import opened Text
  import opened Platforms
  import ChatEmbed

  const PlayerPrefix := "https://player.twitch.tv/?channel="
  const PlayerInfix := "&parent="
  const YouTubeLivePrefix := "https://www.youtube.com/embed/live_stream?channel="

  /** `window?.location?.hostname || 'localhost'`: a missing or empty host
      name becomes `localhost`. */
  function Hostname(window: Option<string>): (h: string)
    ensures h != ""
    ensures window.GetOr("") == "" ==> h == "localhost"
    ensures window.GetOr("") != "" ==> h == window.value
  {
    if window.GetOr("") != "" then window.value else "localhost"
  }

  function TwitchPlayerUrl(twitchChannel: string, host: string): string {
    PlayerPrefix + twitchChannel + PlayerInfix + host
  }

  /** `youtubeStreamUrl || .../live_stream?channel=<youtubeChannel>`. */
  function YouTubePlayerUrl(youtubeStreamUrl: Option<string>, youtubeChannel: string): (url: string)
    ensures url != ""
    ensures youtubeStreamUrl.GetOr("") != "" ==> url == youtubeStreamUrl.value
    ensures youtubeStreamUrl.GetOr("") == "" ==>
      && |url| >= |YouTubeLivePrefix|
      && url[..|YouTubeLivePrefix|] == YouTubeLivePrefix
      && url[|YouTubeLivePrefix|..] == youtubeChannel
  {
    if youtubeStreamUrl.GetOr("") != "" then youtubeStreamUrl.value
    else YouTubeLivePrefix + youtubeChannel
  }

  /** The component's props that the player depends on. */
  datatype Props = Props(
    twitchChannel: string, youtubeChannel: string, youtubeStreamUrl: Option<string>,
    platform: Platform, hasCallback: bool, hideControls: bool)

  /** The address the effect stores for the current platform. */
  function EmbedUrl(current: Platform, props: Props, window: Option<string>): (url: string)
    ensures url != ""
    ensures current == TwitchPlatform ==> url == TwitchPlayerUrl(props.twitchChannel, Hostname(window))
    ensures current == YouTubePlatform ==> url == YouTubePlayerUrl(props.youtubeStreamUrl, props.youtubeChannel)
  {
    match current
    case TwitchPlatform => TwitchPlayerUrl(props.twitchChannel, Hostname(window))
    case YouTubePlatform => YouTubePlayerUrl(props.youtubeStreamUrl, props.youtubeChannel)
  }

  /** Without a custom YouTube address the two platforms' players never
      coincide, so the address shown tells the platform. */
  lemma EmbedUrlTellsPlatform(current: Platform, props: Props, window: Option<string>)
    requires props.youtubeStreamUrl.GetOr("") == ""
    ensures EmbedUrl(current, props, window) == TwitchPlayerUrl(props.twitchChannel, Hostname(window))
       <==> current == TwitchPlatform
  {
    if current == YouTubePlatform {
      var y := EmbedUrl(current, props, window);
      var t := TwitchPlayerUrl(props.twitchChannel, Hostname(window));
      assert y[..|YouTubeLivePrefix|][8] == 'w';
      assert t[..|PlayerPrefix|] == PlayerPrefix;
      assert t[..|PlayerPrefix|][8] == 'p';
    }
  }

  /** The component's state: the platform toggle and `embedUrl`. */
  datatype View = View(toggle: Toggle, embedUrl: string)

  /** The first render, before any effect has run. */
  function Mount(props: Props): (v: View)
    ensures v.toggle.current == props.platform
  {
    View(Platforms.Mount(props.platform), "")
  }

  /** The address effect, run after a render in which the current platform
      or the addresses' inputs changed. */
  function Effect(v: View, props: Props, window: Option<string>): (r: View)
    ensures r.toggle == v.toggle
  {
    v.(embedUrl := EmbedUrl(v.toggle.current, props, window))
  }

  /** `{embedUrl && <iframe .../>}` */
  predicate ShowsPlayer(v: View) {
    v.embedUrl != ""
  }

  /** `{!hideControls && ...}` */
  predicate ShowsControls(props: Props) {
    !props.hideControls
  }

  /** Hiding the switch buttons only hides them: the buttons show exactly
      when `hideControls` is off, and the player's address is the same
      either way. */
  lemma HideControlsOnlyHides(current: Platform, props: Props, hidden: bool, window: Option<string>)
    ensures var q := props.(hideControls := hidden);
      && (ShowsControls(q) <==> !hidden)
      && EmbedUrl(current, q, window) == EmbedUrl(current, props, window)
  {
  }

  /** The first render has no player; once the effect has run there always
      is one, for the platform of the toggle. */
  lemma PlayerAppearsAfterEffect(props: Props, v: View, window: Option<string>)
    ensures !ShowsPlayer(Mount(props))
    ensures ShowsPlayer(Effect(v, props, window))
    ensures Effect(v, props, window).embedUrl == EmbedUrl(v.toggle.current, props, window)
  {
  }

  /** A click followed by the effect it triggers shows the chosen
      platform's player, and reports the choice when there is a callback. */
  lemma ClickShowsChoice(v: View, props: Props, choice: Platform, window: Option<string>)
    ensures var o := Step(v.toggle, Clicked(choice), props.hasCallback);
      var r := Effect(View(o.state, v.embedUrl), props, window);
      && r.embedUrl == EmbedUrl(choice, props, window)
      && ShowsPlayer(r)
      && (o.notified == if props.hasCallback then Some(choice) else None)
  {
  }

  /** Reads a Twitch player address back into the channel and host. */
  function ParsePlayerUrl(url: string): Option<(string, string)> {
    if ChatEmbed.StartsWith(url, PlayerPrefix) then ChatEmbed.SplitAt(url[|PlayerPrefix|..], PlayerInfix)
    else None
  }

  /** A channel without `&` is read back from the player address together
      with the host. */
  lemma PlayerUrlRoundTrip(twitchChannel: string, window: Option<string>)
    requires '&' !in twitchChannel
    ensures ParsePlayerUrl(TwitchPlayerUrl(twitchChannel, Hostname(window))) == Some((twitchChannel, Hostname(window)))
  {
    ChatEmbed.SplitAfterPrefix(PlayerPrefix, twitchChannel, PlayerInfix, Hostname(window));
  }

  /** The two embeds agree on the host except for an empty window host
      name: the player falls back to `localhost`, the chat keeps it empty. */
  lemma HostnamesDiffer(window: Option<string>)
    ensures Hostname(window) == ChatEmbed.Hostname(window) <==> window != Some("")
    ensures window == Some("") ==> Hostname(window) == "localhost" && ChatEmbed.Hostname(window) == ""
  {
  }
}
