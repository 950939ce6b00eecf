# nieumiemgrac — a Dafny model of the site's logic

The streamer site *NieUmiemGrac* is a Next.js application. Most of it is
presentation; its logic is a handful of pure functions and two small state
machines. This project models that logic and proves properties of it:

- **Durations**:
  - `formatYouTubeDuration` reads the time part of an ISO 8601 duration (`PT1H2M3S`) and renders `H:MM:SS` or `M:SS`;
  - `formatTwitchDuration` reads Twitch's `1h2m3s` form and always renders `H:MM:SS`.
- **Twitch helpers**:
  - the thumbnail template (`{width}`/`{height}`, first occurrence only);
  - the application-token cache, a `(token, expiry)` state machine with a 50-day lifetime.
- **YouTube ranking**: the tail of `getPopularYouTubeVideos`, which maps the API items, sorts them by views and keeps the first `limit`.
- **Archive page** (`/archiwum`):
  - mapping Twitch and YouTube videos into cards;
  - the game list `['Wszystkie', ...new Set(games)]`;
  - the game and title filter;
  - the selector, list body and pagination conditions;
  - platform switching.
- **Embeds**:
  - the chat and player addresses of `ChatEmbed` and `StreamEmbed`;
  - the local platform state they keep. It starts from the `platform` prop, follows the prop when the prop changes, and is set by the switch buttons, which report the choice to `onPlatformChange`.
- **Discord notifications**:
  - the configuration defaults;
  - the four webhook messages: Twitch live, YouTube live, new video, scheduled stream;
  - the send step, whose POST outcome is an input.

JavaScript behaviour is written out explicitly:

- `String.prototype.replace` with a string pattern replaces the first occurrence only.
- `||` treats `""` and `undefined` alike.
- Regular-expression matches are the leftmost ones.
- `padStart`, `parseInt`, `toString`, `split`, `includes` and `slice` (including a negative limit) have their JavaScript meaning.
- `Array.prototype.sort` is stable.
- `new Set` iterates in insertion order.
- A React effect runs only when one of its dependencies changed.

Modules:

- `Wrappers`: `Option`, `Result`.
- `Text`: digits and numerals, `indexOf` and `replace`, `split`, ASCII `toLowerCase`.
- `Seqs`: filter and first-occurrence de-duplication.
- `YouTube`, `Twitch`: the library modules `src/lib/youtube.ts` and `src/lib/twitch.ts`.
- `Platforms`: the shared platform toggle.
- `Archive`: the archive page.
- `ChatEmbed`, `StreamEmbed`: the embed components.
- `Discord`: `src/lib/discord.ts`.

The chat is an inline frame whose address is built from the props and the
browser's host name.

## Model

| member | source | states |
|---|---|---|
| Text.NatToString | src/lib/youtube.ts:274-277 | `n.toString()` is a non-empty digit string that reads back as `n` and starts with `0` only for zero |
| Text.CanonicalNumeral | src/lib/youtube.ts:269-277 | a digit string without a leading zero is the `toString` of its `parseInt`, so the numeral is recovered exactly |
| Text.PadTwo | src/lib/twitch.ts:261 | `padStart(2, '0')` widens a numeral to at least two characters with leading zeros, keeps the original as suffix and keeps its value |
| Text.ReplaceFirst | src/lib/twitch.ts:240-242 | `replace` with a string pattern returns the input when the pattern is absent, else splices the replacement over the first occurrence only |
| Text.ReplaceFirstAfter | src/lib/twitch.ts:240-242 | in `pre + pat + post` with no start of `pat` in `pre`, replacing yields `pre + rep + post`, leaving later occurrences in `post` alone |
| Text.FirstOccurrenceAfterAbsent | src/lib/twitch.ts:240-242 | when `pre` does not contain `pat` and the first character of `pat` does not recur in it, the first occurrence of `pat` in `pre + pat + post` is at `|pre|`, whatever `post` holds |
| Text.ReplaceFirstAfterAbsent | src/lib/twitch.ts:240-242 | under the same conditions, replacing in `pre + pat + post` yields `pre + rep + post`, leaving later occurrences in `post` alone |
| Text.ContainsIff | src/app/archiwum/page.tsx:117 | `includes` holds exactly when the pattern occurs at some index |
| Text.Lower | src/app/archiwum/page.tsx:117 | `toLowerCase` keeps the length, leaves no capital letter, turns each capital into its lower-case letter and keeps every other character |
| Text.LowerIdempotent | src/app/archiwum/page.tsx:117 | lower-casing an already lower-cased text changes nothing |
| Seqs.Filter | src/app/archiwum/page.tsx:110-122 | `filter` keeps exactly the elements satisfying the predicate, each as many times as it occurs, and never lengthens the sequence |
| Seqs.FilterIsSubsequence | src/app/archiwum/page.tsx:110-122 | the filtered list is an order-preserving subsequence of the input |
| Seqs.Dedup | src/app/archiwum/page.tsx:68 | `[...new Set(s)]` has no duplicates and the same elements as `s` |
| Seqs.DedupFirstOccurrenceOrder | src/app/archiwum/page.tsx:68 | the de-duplicated elements come in the order of their first occurrences |
| YouTube.OptionalGroup | src/lib/youtube.ts:263 | for a letter designator the optional group `(?:(\d+)X)?` matches exactly when a non-empty digit run at the position is followed by `X`; it then reads that run's value and moves past `X`, and otherwise consumes and captures nothing |
| YouTube.FormatYouTubeDuration | src/lib/youtube.ts:261-278 | without `PT` the result is `0:00`; otherwise it is the clock of the components read after the first `PT` |
| YouTube.ClockFields | src/lib/youtube.ts:273-277 | with hours the output splits into three fields (hours unpadded, minutes and seconds of at least two digits); without, into minutes unpadded and seconds padded; every field reads back as its component |
| YouTube.IsoDurationRoundTrip | src/lib/youtube.ts:263-271 | reading the ISO 8601 time part YouTube emits gives back the hours, minutes and seconds it was written from |
| YouTube.FormatIsoDuration | src/lib/youtube.ts:261-278 | formatting any duration in YouTube's form renders exactly its components' clock |
| YouTube.ExampleAllUnits | src/lib/youtube.ts:261-278 | `PT1H2M3S` gives `1:02:03` |
| YouTube.ExampleNoCarry | src/lib/youtube.ts:269-277 | `PT90M` gives `90:00`: minutes are not carried into hours |
| YouTube.ExampleZero | src/lib/youtube.ts:269-277 | `PT0S` gives `0:00` |
| YouTube.ExampleEmptyTime | src/lib/youtube.ts:263-277 | `PT` with no component gives `0:00`: absent groups count as zero |
| YouTube.ExampleNoTimePart | src/lib/youtube.ts:263-267 | `P1DT2H` (a day part before `T`) and the empty string contain no `PT` and give `0:00` |
| YouTube.BestThumbnail | src/app/archiwum/page.tsx:82-84 | the image is `maxres` when non-empty, else `standard` when non-empty, else `high` |
| YouTube.BestThumbnailIsFirstPresent | src/app/archiwum/page.tsx:82-84 | the choice is the generic first-non-empty chain of `or` over the three sizes, and it yields `high` iff both larger sizes are empty or the first non-empty one equals `high` |
| YouTube.ParseIntDigits | src/lib/youtube.ts:248-250 | `parseInt` of a non-empty digit string is its decimal value |
| YouTube.ParseIntNumeral | src/lib/youtube.ts:248-250 | `parseInt` reads a numeral statistic back as its value and an empty one as `NaN` |
| YouTube.FromItem | src/lib/youtube.ts:238-251 | a video whose statistic is a digit string ranks by its decimal value; one with an empty statistic has `NaN` views and ranks as 0 |
| YouTube.Insert | src/lib/youtube.ts:252 | inserting adds exactly one element (multiset) and keeps a list sorted by views |
| YouTube.SortByViews | src/lib/youtube.ts:252 | the sort is a permutation whose view counts (missing as 0) never increase |
| YouTube.SortStable | src/lib/youtube.ts:252 | videos with equal counts keep their relative order |
| YouTube.SliceEnd | src/lib/youtube.ts:253 | `slice(0, limit)` ends at `min(limit, n)` for a non-negative limit, and never past the end |
| YouTube.PopularVideos | src/lib/youtube.ts:237-253 | the result has the slice's length, is sorted by views, is a sub-multiset of the mapped items, and no item left out outranks an item kept |
| YouTube.TopOfSorted | src/lib/youtube.ts:252-253 | the first `k` of a sorted list are sorted and rank at least as high as everything after them |
| Twitch.ThumbnailWithoutPlaceholders | src/lib/twitch.ts:239-243 | a URL without `{width}` and `{height}` comes back unchanged |
| Twitch.ThumbnailFillsFirstPlaceholders | src/lib/twitch.ts:239-243 | in any template whose first `{width}` comes before the first `{height}` left after filling the width, those two are replaced by the numerals; text around them and further placeholders stay |
| Twitch.ThumbnailHeightFirst | src/lib/twitch.ts:239-243 | when the first `{height}` comes before the first `{width}`, both are still filled, each with its own size |
| Twitch.ScanRun | src/lib/twitch.ts:248-250 | the regex search finds a digit run followed by the designator and no match starts earlier |
| Twitch.CaptureIsLeftmostRun | src/lib/twitch.ts:248-250 | `match(/(\d+)X/)` fails exactly when no digit run is followed by `X`; otherwise it captures the whole leftmost such run |
| Twitch.CaptureAt | src/lib/twitch.ts:248-250 | the first match determines the captured digits |
| Twitch.CaptureAbsent | src/lib/twitch.ts:248-250 | a string without the designator has no match |
| Twitch.HourField | src/lib/twitch.ts:254-258 | the hour field is the captured digits verbatim, at least one digit, and `0` without a match |
| Twitch.PaddedField | src/lib/twitch.ts:260-270 | a minute or second field is the captured digits padded by `padStart(2, '0')`, so at least two digits, and is `00` without a match |
| Twitch.TwitchFields | src/lib/twitch.ts:252-272 | the output always splits into exactly three numeric fields, with the defaults `0`, `00`, `00` for missing units |
| Twitch.HoursCaptured | src/lib/twitch.ts:248 | in Twitch's duration form the hours are captured exactly when they are written |
| Twitch.MinutesCaptured | src/lib/twitch.ts:249 | the minutes are captured exactly when there are hours or minutes |
| Twitch.SecondsCaptured | src/lib/twitch.ts:250 | the seconds are always captured |
| Twitch.TwitchDurationRoundTrip | src/lib/twitch.ts:246-273 | every duration in Twitch's form renders into three fields that read back as its hours, minutes and seconds |
| Twitch.ExampleAllUnits | src/lib/twitch.ts:246-273 | `1h2m3s` gives `1:02:03` |
| Twitch.ExampleEmpty | src/lib/twitch.ts:252-272 | the empty string gives `0:00:00` |
| Twitch.GetAccessToken | src/lib/twitch.ts:77-102 | a request is made iff the cached token is empty or expired; a valid cache answers unchanged; success stores the token with expiry `now + 50 days`; an empty or missing token or a failed request raises the error and leaves the cache unchanged; a request answered with a non-empty token returns that token |
| Twitch.InitialCacheRequests | src/lib/twitch.ts:74-81 | the initial state `('', 0)` always requests a token |
| Twitch.StoredTokenReused | src/lib/twitch.ts:79-95 | a stored token is returned without a request before its 50 days are up and is requested anew from then on |
| Twitch.CacheInvariantPreserved | src/lib/twitch.ts:88-95 | a call never stores an empty token |
| Twitch.RunCallsKeepsInvariant | src/lib/twitch.ts:74-102 | across any sequence of calls the cache holds an empty token only in its initial state |
| Platforms.Step | src/components/ChatEmbed.tsx:21-31 | a click sets the state and calls the callback with the same value iff there is one; a render overwrites the state only when the prop changed |
| Platforms.RunNotifiesClicks | src/components/ChatEmbed.tsx:26-31 | over any events the callback receives exactly the clicked choices in order, and nothing without a callback |
| Platforms.ControlledLockStep | src/components/StreamEmbed.tsx:26-46 | when the parent echoes each reported choice back as the prop, state and prop agree and end on the last choice |
| Platforms.ClickSurvivesSameProp | src/components/StreamEmbed.tsx:26-28 | re-rendering with an unchanged prop does not undo a click |
| Archive.GameOf | src/app/archiwum/page.tsx:58 | the game is the non-empty `game_name`, else `Nieznana gra`; never empty |
| Archive.TwitchItemFields | src/app/archiwum/page.tsx:49-59 | every Twitch card has a non-empty game, and its thumbnail is the template filled at 320x180 as `formatTwitchThumbnailUrl` fills it |
| Archive.TwitchItemThumbnail | src/app/archiwum/page.tsx:52 | in any template whose first `{width}` precedes its first `{height}`, those become `320` and `180` and the rest of the card's fields are as mapped |
| Archive.YouTubeItemFields | src/app/archiwum/page.tsx:79-91 | a YouTube card has no game, counts a missing view count as 0, shows a missing duration as `0:00` and links to `/live/<id>` |
| Archive.MapDated | src/app/archiwum/page.tsx:56 | the mapping succeeds iff every date converts, throwing the date error otherwise; on success it has one card per video, in order |
| Archive.GameNames | src/app/archiwum/page.tsx:64-66 | the games kept are the non-empty games of the cards, none empty |
| Archive.AvailableGames | src/app/archiwum/page.tsx:68 | the options are `Wszystkie` followed by exactly the games present |
| Archive.AvailableGamesOrder | src/app/archiwum/page.tsx:64-68 | the options after `Wszystkie` are distinct and in order of first appearance |
| Archive.AvailableGamesDistinct | src/app/archiwum/page.tsx:68 | the options are free of duplicates iff no game is itself called `Wszystkie` |
| Archive.GameNamesAllNamed | src/app/archiwum/page.tsx:64-66 | when every card has a game, the game list is the cards' games one for one |
| Archive.LoadTwitch | src/app/archiwum/page.tsx:39-68 | a Twitch load without an unreadable date gives one card per video and the options built from them; otherwise the failure state |
| Archive.TwitchGames | src/app/archiwum/page.tsx:49-68 | after a Twitch load the options are `Wszystkie` then the distinct games of the videos in first-appearance order |
| Archive.LoadYouTube | src/app/archiwum/page.tsx:69-100 | a YouTube load leaves only `Wszystkie` as option; a thrown fetch gives the failure state; otherwise one card per video iff every date converts |
| Archive.FilterVideos | src/app/archiwum/page.tsx:110-122 | a card is kept iff its game matches a specific selected game and its lower-cased title contains the lower-cased query; a kept card stays as often as it occurs, so the pagination count is exact |
| Archive.FilterVideosOrder | src/app/archiwum/page.tsx:110-122 | the filtered list keeps the cards' order |
| Archive.FilterVideosIdentity | src/app/archiwum/page.tsx:112-117 | with no game (or `Wszystkie`) and no query nothing is removed |
| Archive.FilterVideosIdempotent | src/app/archiwum/page.tsx:110-122 | filtering the filtered list again changes nothing |
| Archive.InitialPageShowsSpinner | src/app/archiwum/page.tsx:25-31 | before the first fetch ends the page shows the spinner, no pagination, and a disabled selector |
| Archive.SelectPlatform | src/app/archiwum/page.tsx:33-37 | a new platform starts loading and clears the error, keeping the videos, options, game and query until the fetch ends |
| Archive.Finish | src/app/archiwum/page.tsx:61-103 | the end of a fetch stores its videos, options and error and stops loading, keeping platform, game and query |
| Archive.StaleGameHidesYouTube | src/app/archiwum/page.tsx:112 | as written, a game picked on Twitch hides every YouTube video after the switch: the page shows the empty message and no pagination while the selector is disabled |
| Archive.YouTubeIgnoresGame | src/app/archiwum/page.tsx:166-175 | with the game condition applied on Twitch only, the YouTube list does not depend on the selected game; without a query every loaded video is shown and paginated by count |
| Archive.TwitchFilterUnchanged | src/app/archiwum/page.tsx:110-122 | on Twitch the corrected filter, body and pagination are those as written |
| Archive.BodyFor | src/app/archiwum/page.tsx:203-212 | the spinner shows iff loading; the grid shows iff not loading, no error and some card passes the filter, and then it holds exactly the filtered cards |
| Archive.AfterFailure | src/app/archiwum/page.tsx:96-103 | after a failed fetch the error text is shown, there is no pagination and the selector is disabled |
| Archive.AfterTwitchLoad | src/app/archiwum/page.tsx:175 | after a Twitch load the selector is disabled iff there are no videos, and the grid shows iff some card passes the filter as written |
| Archive.SpinnerWithPagination | src/app/archiwum/page.tsx:285 | while another platform loads, the spinner shows together with the pagination of the previous list, counted by the filter as written |
| ChatEmbed.Hostname | src/components/ChatEmbed.tsx:35 | without a window the host is `localhost`; with one its host name is used as is |
| ChatEmbed.VideoOrDefault | src/components/ChatEmbed.tsx:40 | a missing or empty video id becomes `live_stream` |
| ChatEmbed.ChatUrlRoundTrip | src/components/ChatEmbed.tsx:34-42 | the chat address reads back as the current platform, the channel (Twitch) or video id (YouTube), and the host |
| ChatEmbed.TwitchChatIgnoresVideo | src/components/ChatEmbed.tsx:37-38 | on Twitch the address does not depend on the video id |
| ChatEmbed.ChatFollowsClick | src/components/ChatEmbed.tsx:26-42 | after a click the chat address is the chosen platform's |
| StreamEmbed.Hostname | src/components/StreamEmbed.tsx:31 | a missing or empty host name becomes `localhost` |
| StreamEmbed.YouTubePlayerUrl | src/components/StreamEmbed.tsx:35 | a non-empty `youtubeStreamUrl` is used as is, otherwise the `live_stream?channel=` address of the channel |
| StreamEmbed.EmbedUrl | src/components/StreamEmbed.tsx:30-38 | the address is never empty and is the Twitch player on Twitch and the YouTube address on YouTube |
| StreamEmbed.EmbedUrlTellsPlatform | src/components/StreamEmbed.tsx:37 | without a custom YouTube address, the address is the Twitch player iff the platform is Twitch |
| StreamEmbed.Effect | src/components/StreamEmbed.tsx:30-38 | the address effect does not touch the platform state |
| StreamEmbed.PlayerAppearsAfterEffect | src/components/StreamEmbed.tsx:78 | the first render has no frame; after the effect there always is one, for the current platform |
| StreamEmbed.ClickShowsChoice | src/components/StreamEmbed.tsx:41-46 | a click followed by its effect shows the chosen platform's player and reports the choice iff there is a callback |
| StreamEmbed.PlayerUrlRoundTrip | src/components/StreamEmbed.tsx:32 | the Twitch player address reads back as the channel and host |
| StreamEmbed.HostnamesDiffer | src/components/StreamEmbed.tsx:31 | the player's and the chat's host agree except for an empty window host name, which only the player replaces by `localhost` |
| StreamEmbed.HideControlsOnlyHides | src/components/StreamEmbed.tsx:50-51 | the switch buttons show exactly when `hideControls` is off, and hiding them never changes the player's address |
| Discord.ConfigOf | src/lib/discord.ts:43-47 | each of the five values is its environment variable when that is set and non-empty, and its default otherwise; none is empty |
| Discord.SiteLabelStripsScheme | src/lib/discord.ts:100 | the site label is the address without its leading `https://` |
| Discord.TwitchStreamMessageFacts | src/lib/discord.ts:61-110 | the Twitch message links to the channel, shows the stream image filled at 1280x720, and has the game, a viewer count reading back as the stream's, and the site link |
| Discord.YouTubeStreamImage | src/lib/discord.ts:128-172 | the YouTube stream image is `maxres`, else `standard`, else `high`, and the message has the YouTube colour and two fields |
| Discord.Truncate | src/lib/discord.ts:204 | a description over 200 characters becomes its first 200 plus `...`; otherwise it is unchanged |
| Discord.TruncateIdempotent | src/lib/discord.ts:204 | truncating twice is truncating once, and the result is at most 203 characters |
| Discord.VideoMessageDescription | src/lib/discord.ts:195-223 | the new-video message shows the description itself iff it is at most 200 characters or already 200 plus `...` |
| Discord.MetaConsistent | src/lib/discord.ts:246-253 | the colour, name, address and icon are each the Twitch one iff the platform is Twitch and the YouTube one iff it is YouTube; the address is the whole Twitch or YouTube channel page |
| Discord.ScheduleMessageFacts | src/lib/discord.ts:287-313 | the fields are date, time, platform, [game], site: five iff there is a game, four otherwise; colour, icon and platform name agree with the platform, and the message and author link to that platform's channel page |
| Discord.Send | src/lib/discord.ts:54-117 | a request is made iff a webhook is configured, carrying the message to it; the result is true iff the POST succeeds |
| Discord.SendFromEnv | src/lib/discord.ts:43-59 | with the configuration from the environment the webhook check never fails: the POST goes to the configured webhook (else the default) and the result is exactly its outcome |

## Left out

- HTTP is not modelled. Each GET and POST, including the Twitch token request, the video lists and the Discord webhook POST, is an input: a response, a thrown failure or a success flag.
- `getYouTubeCompletedLiveStreams`, which the archive page imports, is not defined in `src/lib/youtube.ts`. The YouTube fetch of the archive page is therefore an input (`Archive.LoadYouTube`).
- Dates are not modelled:
  - `new Date(s).toISOString().split('T')[0]` is an abstract function that may fail (`Archive.MapDated`);
  - `toLocaleDateString`, `toLocaleTimeString` and `new Date().toISOString()` timestamps are string parameters;
  - the clip date windows of `src/lib/twitch.ts` are not modelled.
- `formatViewCount` and its copies are not modelled: they use floating-point division and `toFixed(1)`.
- Text.Lower: lower-cases ASCII letters only; JavaScript's full Unicode `toLowerCase` is not modelled.
- Discord.Truncate: counts code points, while JavaScript's `length` and `substring` count UTF-16 units, so a description with characters outside the Basic Multilingual Plane is cut at a different place.
- YouTube.ParseYouTubeDuration: reads each hour, minute and second component as its exact decimal value; JavaScript's `parseInt` loses precision above 2^53.
- YouTube.ParseInt: reads arbitrary-precision integers. It does not model the loss of precision above 2^53, and treats only the ASCII white-space characters as leading space.
- Text.NatToString: renders every integer in positional form; JavaScript switches to exponent form above 10^21.
- Twitch.FormatThumbnailUrl: takes natural-number sizes; fractional or negative `width`/`height` are not modelled.
- ChatEmbed.ChatUrlRoundTrip: requires a Twitch channel without `/` and a YouTube id without `&`. Otherwise the address itself is ambiguous, so it cannot be read back.
- StreamEmbed.PlayerUrlRoundTrip: requires a channel without `&`, for the same reason.
- Discord.Send: the message is built before the POST, and an exception while building it is not modelled.
- Twitch.TwitchDurationRoundTrip: holds for durations in the form Twitch reports. For arbitrary strings, `Twitch.TwitchFields` and `Twitch.CaptureIsLeftmostRun` describe the result.
- Concurrency is not modelled. The archive page's fetches run one at a time here; a slow earlier fetch finishing after a later one is not covered.
- Presentational components, static pages and the constant-JSON webhook route are not part of this model.
- Environment credentials of the Twitch and YouTube clients are configuration and are not part of this model.
- Twitch archive durations are shown as Twitch reports them (e.g. `3h8m33s`): the page does not call `formatTwitchDuration`. The model does the same.
- The game of a Twitch video is read from `game_name`, which the `TwitchVideo` type in `src/lib/twitch.ts` does not declare. When the response carries no such field, every card shows `Nieznana gra`. The model keeps `game_name` optional and covers both cases.

## Findings

| source | as written | input that shows it | evidently intended | confidence | as-written member | corrected member |
|---|---|---|---|---|---|---|
| src/app/archiwum/page.tsx:112 | the game condition applies on both platforms, and `selectedGame` survives a switch to YouTube, where no card has a game and the selector is disabled (line 175) | pick a game such as `Minecraft` on Twitch, then press YouTube: once the YouTube fetch returns videos, every card fails `video.game !== selectedGame` and the empty message is shown, with no way to clear the choice. The fetch (line 72) calls `getYouTubeCompletedLiveStreams`, which `src/lib/youtube.ts` does not define, so until it exists the `catch` (lines 96-98) shows the error text instead | the game filter applies to Twitch only, as the comment above the selector says (line 166) | medium; not executed | Archive.StaleGameHidesYouTube | Archive.YouTubeIgnoresGame |

`Archive.FilteredAsWritten` is the filter as written, and the list body (`Archive.BodyOf`) and the pagination condition (`Archive.ShowsPagination`) are the page as written, built on it. The corrected filter is `Archive.Filtered`; `Archive.BodyOfCorrected` and `Archive.ShowsPaginationCorrected` are the body and pagination built on it.
