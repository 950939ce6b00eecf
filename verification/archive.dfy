/** The stream archive page (src/app/archiwum/page.tsx): the mapping of
    Twitch and YouTube videos into the page's items, the list of games
    offered by the game selector, the game and title filter, and the
    conditions under which the selector is disabled, the list shows a
    spinner, an error, a grid or an empty message, and pagination appears.
    The fetches and the date conversion are inputs. */
module Archive {
  import opened Wrappers
  import opened Text
  import opened Platforms
  import Seqs
  import YouTube
  import Twitch

  const AllGames := "Wszystkie"
  const UnknownGame := "Nieznana gra"
  /** The message of the `RangeError` `toISOString` throws for a date it
      cannot represent. */
  const InvalidDate := "Invalid time value"
  const LoadErrorPrefix := "Wystąpił błąd podczas pobierania filmów: "
  const UnknownError := "Nieznany błąd"
  /** The number of items above which pagination is shown. */
  const PageSize := 12

  /** The page's `VideoItem`. */
  datatype ArchiveVideo = ArchiveVideo(
    id: string, title: string, thumbnail: string, url: string, views: int,
    duration: string, date: string, platform: Platform, game: Option<string>)

  /** The fields of a Twitch `videos` entry the page reads. `gameName` is the
      `game_name` field, which the entry may lack. */
  datatype TwitchVod = TwitchVod(
    id: string, title: string, createdAt: string, url: string,
    thumbnailUrl: string, viewCount: int, duration: string, gameName: Option<string>)

  /** A thrown value: an `Error` carrying a message, or anything else. */
  datatype Failure = ErrorWith(message: string) | NonError

  /** A computation that returns a value or throws. */
  datatype Attempt<+T> = Done(value: T) | Threw(failure: Failure)

  // ---------------------------------------------------------------------
  // Items
  // ---------------------------------------------------------------------

  /** `video.game_name || 'Nieznana gra'`. */
  function GameOf(v: TwitchVod): (g: string)
    ensures g != ""
    ensures v.gameName.GetOr("") != "" ==> g == v.gameName.value
    ensures v.gameName.GetOr("") == "" ==> g == UnknownGame
  {
    if v.gameName.GetOr("") != "" then v.gameName.value else UnknownGame
  }

  /** A Twitch video as shown in the archive; `date` is the day part of its
      creation time. The duration is shown as Twitch reports it. */
  function TwitchItem(v: TwitchVod, date: string): ArchiveVideo {
    ArchiveVideo(
      v.id, v.title,
      ReplaceFirst(ReplaceFirst(v.thumbnailUrl, "{width}", "320"), "{height}", "180"),
      v.url, v.viewCount, v.duration, date, TwitchPlatform, Some(GameOf(v)))
  }

  /** Every Twitch item carries a non-empty game, the `game_name` when that
      is non-empty, and its thumbnail is the template filled at 320x180 the
      way `formatTwitchThumbnailUrl` fills it. */
  lemma TwitchItemFields(v: TwitchVod, date: string)
    ensures var a := TwitchItem(v, date);
      && a.game.Some? && a.game.value != ""
      && (v.gameName.GetOr("") != "" ==> a.game == v.gameName)
      && (v.gameName.GetOr("") == "" ==> a.game == Some(UnknownGame))
      && a.thumbnail == Twitch.FormatThumbnailUrl(v.thumbnailUrl, 320, 180)
      && a.platform == TwitchPlatform && a.date == date
  {
    SmallNumerals();
  }

  /** The thumbnail of a template holding a `{width}` and, after it, a
      `{height}`: those two become `320` and `180`, whatever other braces
      the template holds. */
  lemma TwitchItemThumbnail(pre: string, mid: string, post: string, v: TwitchVod, date: string)
    requires !Contains(pre, "{width}") && !Contains(pre + "320" + mid, "{height}")
    requires v.thumbnailUrl == pre + "{width}" + mid + "{height}" + post
    ensures TwitchItem(v, date).thumbnail == pre + "320" + mid + "180" + post
  {
    SmallNumerals();
    Twitch.ThumbnailFillsFirstPlaceholders(pre, mid, post, 320, 180);
    TwitchItemFields(v, date);
  }

  lemma SmallNumerals()
    ensures NatToString(320) == "320" && NatToString(180) == "180"
  {
    assert NatToString(3) == "3" && NatToString(32) == "32";
    assert NatToString(1) == "1" && NatToString(18) == "18";
  }

  /** The address of a finished YouTube broadcast. */
  function LiveUrl(id: string): string {
    "https://www.youtube.com/live/" + id
  }

  /** `video.duration || 'PT0S'`. */
  function DurationOrZero(d: Option<string>): string {
    if d.GetOr("") != "" then d.value else "PT0S"
  }

  /** A YouTube video as shown in the archive: it has no game. */
  function YouTubeItem(v: YouTube.Video, date: string): ArchiveVideo {
    ArchiveVideo(
      v.id, v.title, YouTube.BestThumbnail(v.thumbnails), LiveUrl(v.id),
      v.viewCount.GetOr(0), YouTube.FormatYouTubeDuration(DurationOrZero(v.duration)),
      date, YouTubePlatform, None)
  }

  /** A YouTube item has no game, ranks a missing view count as zero and
      shows a missing or empty duration as `0:00`. */
  lemma YouTubeItemFields(v: YouTube.Video, date: string)
    ensures var a := YouTubeItem(v, date);
      && a.game.None? && a.platform == YouTubePlatform
      && a.views == v.viewCount.GetOr(0)
      && (v.duration.GetOr("") == "" ==> a.duration == "0:00")
      && (v.duration.GetOr("") != "" ==> a.duration == YouTube.FormatYouTubeDuration(v.duration.value))
      && a.url[..|"https://www.youtube.com/live/"|] == "https://www.youtube.com/live/"
      && a.url[|"https://www.youtube.com/live/"|..] == v.id
  {
    YouTube.ExampleZero();
  }

  /** `xs.map(x => ({ ..., date: day(stamp(x)), ... }))`: `day` stands for
      `new Date(s).toISOString().split('T')[0]` and is `None` where
      `toISOString` throws; the first such element aborts the whole map. */
  function MapDated<A>(xs: seq<A>, stamp: A -> string, day: string -> Option<string>,
                       make: (A, string) -> ArchiveVideo): (r: Attempt<seq<ArchiveVideo>>)
    ensures r.Done? <==> forall i | 0 <= i < |xs| :: day(stamp(xs[i])).Some?
    ensures r.Threw? ==> r.failure == ErrorWith(InvalidDate)
    ensures r.Done? ==> |r.value| == |xs|
    ensures r.Done? ==> forall i | 0 <= i < |xs| :: r.value[i] == make(xs[i], day(stamp(xs[i])).value)
    decreases |xs|
  {
    if |xs| == 0 then Done([])
    else
      match day(stamp(xs[0]))
      case None => Threw(ErrorWith(InvalidDate))
      case Some(d) =>
        match MapDated(xs[1..], stamp, day, make)
        case Threw(f) => Threw(f)
        case Done(rest) =>
          assert forall i | 1 <= i < |xs| :: xs[i] == xs[1..][i - 1];
          Done([make(xs[0], d)] + rest)
  }

  // ---------------------------------------------------------------------
  // Games
  // ---------------------------------------------------------------------

  /** `videos.map(v => v.game).filter(g => !!g)`. */
  function GameNames(videos: seq<ArchiveVideo>): (r: seq<string>)
    ensures |r| <= |videos|
    ensures forall k | 0 <= k < |r| :: r[k] != ""
    ensures forall i | 0 <= i < |videos| && videos[i].game.GetOr("") != "" :: videos[i].game.value in r
    ensures forall g | g in r :: Some(g) in Games(videos)
    decreases |videos|
  {
    if |videos| == 0 then []
    else
      var rest := GameNames(videos[1..]);
      assert forall i | 1 <= i < |videos| :: videos[i] == videos[1..][i - 1];
      assert Games(videos) == [videos[0].game] + Games(videos[1..]);
      if videos[0].game.GetOr("") != "" then [videos[0].game.value] + rest else rest
  }

  /** The `game` field of every item, in order. */
  function Games(videos: seq<ArchiveVideo>): (r: seq<Option<string>>)
    ensures |r| == |videos|
    ensures forall i | 0 <= i < |videos| :: r[i] == videos[i].game
  {
    seq(|videos|, i requires 0 <= i < |videos| => videos[i].game)
  }

  /** `['Wszystkie', ...new Set(games)]`. */
  function AvailableGames(videos: seq<ArchiveVideo>): (r: seq<string>)
    ensures |r| >= 1 && r[0] == AllGames
    ensures forall g | g in r[1..] :: g in GameNames(videos)
    ensures forall g | g in GameNames(videos) :: g in r[1..]
  {
    var r := [AllGames] + Seqs.Dedup(GameNames(videos));
    assert r[1..] == Seqs.Dedup(GameNames(videos));
    r
  }

  /** The options after `Wszystkie` are the games in the order they first
      appear among the videos, each once. */
  lemma AvailableGamesOrder(videos: seq<ArchiveVideo>)
    ensures var names := GameNames(videos); var r := AvailableGames(videos);
      && Seqs.Distinct(r[1..])
      && forall i, j | 1 <= i < j < |r| :: Seqs.FirstIndex(names, r[i]) < Seqs.FirstIndex(names, r[j])
  {
    var names := GameNames(videos);
    var r := AvailableGames(videos);
    assert r[1..] == Seqs.Dedup(names);
    Seqs.DedupFirstOccurrenceOrder(names);
    forall i, j | 1 <= i < j < |r|
      ensures Seqs.FirstIndex(names, r[i]) < Seqs.FirstIndex(names, r[j])
    {
      assert r[i] == Seqs.Dedup(names)[i - 1] && r[j] == Seqs.Dedup(names)[j - 1];
    }
  }

  /** The options are free of duplicates exactly when no video's game is
      itself called `Wszystkie`; otherwise that name is offered twice. */
  lemma AvailableGamesDistinct(videos: seq<ArchiveVideo>)
    ensures Seqs.Distinct(AvailableGames(videos)) <==> AllGames !in GameNames(videos)
  {
    var r := AvailableGames(videos);
    var d := Seqs.Dedup(GameNames(videos));
    assert r == [AllGames] + d;
    if AllGames in GameNames(videos) {
      var k :| 0 <= k < |d| && d[k] == AllGames;
      assert r[0] == r[k + 1];
    }
  }

  /** When every item has a non-empty game, as every Twitch item does, the
      game names are the items' games one for one. */
  lemma {:induction false} GameNamesAllNamed(videos: seq<ArchiveVideo>)
    requires forall i | 0 <= i < |videos| :: videos[i].game.GetOr("") != ""
    ensures |GameNames(videos)| == |videos|
    ensures forall i | 0 <= i < |videos| :: GameNames(videos)[i] == videos[i].game.value
    decreases |videos|
  {
    if |videos| > 0 {
      assert forall i | 1 <= i < |videos| :: videos[i] == videos[1..][i - 1];
      GameNamesAllNamed(videos[1..]);
    }
  }

  // ---------------------------------------------------------------------
  // Loading
  // ---------------------------------------------------------------------

  /** What a fetch leaves in the page state. */
  datatype Loaded = Loaded(videos: seq<ArchiveVideo>, games: seq<string>, error: Option<string>)

  /** The error shown for a thrown value. */
  function ErrorText(f: Failure): string {
    LoadErrorPrefix + match f
      case ErrorWith(m) => m
      case NonError => UnknownError
  }

  /** The `catch` branch: no videos and only the `Wszystkie` option. */
  function LoadFailed(f: Failure): Loaded {
    Loaded([], [AllGames], Some(ErrorText(f)))
  }

  /** The Twitch branch. The list of videos cannot throw (its fetch returns
      an empty list on failure); only an unreadable creation time can. */
  function LoadTwitch(vods: seq<TwitchVod>, day: string -> Option<string>): (l: Loaded)
    ensures l.error.None? <==> forall i | 0 <= i < |vods| :: day(vods[i].createdAt).Some?
    ensures l.error.None? ==> |l.videos| == |vods|
    ensures l.error.None? ==>
      forall i | 0 <= i < |vods| :: l.videos[i] == TwitchItem(vods[i], day(vods[i].createdAt).value)
    ensures l.error.None? ==> l.games == AvailableGames(l.videos)
    ensures l.error.Some? ==> l == LoadFailed(ErrorWith(InvalidDate))
  {
    match MapDated(vods, (v: TwitchVod) => v.createdAt, day, TwitchItem)
    case Done(items) => Loaded(items, AvailableGames(items), None)
    case Threw(f) => LoadFailed(f)
  }

  /** The game of every Twitch video, in order. */
  function TwitchGameList(vods: seq<TwitchVod>): (r: seq<string>)
    ensures |r| == |vods|
    ensures forall i | 0 <= i < |vods| :: r[i] == GameOf(vods[i])
  {
    seq(|vods|, i requires 0 <= i < |vods| => GameOf(vods[i]))
  }

  /** After a successful Twitch load the options are `Wszystkie` and then
      the distinct games of the videos, in order of first appearance. */
  lemma TwitchGames(vods: seq<TwitchVod>, day: string -> Option<string>)
    requires forall i | 0 <= i < |vods| :: day(vods[i].createdAt).Some?
    ensures LoadTwitch(vods, day).games == [AllGames] + Seqs.Dedup(TwitchGameList(vods))
  {
    var l := LoadTwitch(vods, day);
    var games := TwitchGameList(vods);
    assert forall i | 0 <= i < |vods| :: l.videos[i].game == Some(games[i]);
    GameNamesAllNamed(l.videos);
    assert GameNames(l.videos) == games;
  }

  /** The YouTube branch: the fetch itself may throw, and so may a date. */
  function LoadYouTube(fetched: Attempt<seq<YouTube.Video>>, day: string -> Option<string>): (l: Loaded)
    ensures l.games == [AllGames]
    ensures fetched.Threw? ==> l == LoadFailed(fetched.failure)
    ensures l.error.Some? ==> l.videos == []
    ensures fetched.Done? ==>
      (l.error.None? <==> forall i | 0 <= i < |fetched.value| :: day(fetched.value[i].publishedAt).Some?)
    ensures fetched.Done? && l.error.None? ==>
      |l.videos| == |fetched.value| &&
      forall i | 0 <= i < |fetched.value| ::
        l.videos[i] == YouTubeItem(fetched.value[i], day(fetched.value[i].publishedAt).value)
  {
    match fetched
    case Threw(f) => LoadFailed(f)
    case Done(vs) =>
      match MapDated(vs, (v: YouTube.Video) => v.publishedAt, day, YouTubeItem)
      case Done(items) => Loaded(items, [AllGames], None)
      case Threw(f) => LoadFailed(f)
  }

  // ---------------------------------------------------------------------
  // Filtering
  // ---------------------------------------------------------------------

  /** The game condition: no selection, `Wszystkie`, or the item's game. */
  predicate GameMatches(v: ArchiveVideo, selectedGame: string) {
    selectedGame == "" || selectedGame == AllGames || v.game == Some(selectedGame)
  }

  /** The search condition: no query, or the lower-cased title contains the
      lower-cased query. */
  predicate QueryMatches(v: ArchiveVideo, query: string) {
    query == "" || Contains(Lower(v.title), Lower(query))
  }

  predicate Keep(v: ArchiveVideo, selectedGame: string, query: string) {
    GameMatches(v, selectedGame) && QueryMatches(v, query)
  }

  /** `videos.filter(...)` with the game and search conditions. */
  function FilterVideos(videos: seq<ArchiveVideo>, selectedGame: string, query: string): (r: seq<ArchiveVideo>)
    ensures |r| <= |videos|
    ensures forall v | v in r :: v in videos
    ensures forall v | v in videos :: v in r <==> Keep(v, selectedGame, query)
    ensures forall v | v in videos :: multiset(r)[v] == if Keep(v, selectedGame, query) then multiset(videos)[v] else 0
    ensures selectedGame != "" && selectedGame != AllGames ==>
      forall v | v in r :: v.game == Some(selectedGame)
    ensures query != "" ==> forall v | v in r :: Contains(Lower(v.title), Lower(query))
  {
    Seqs.Filter(videos, v => Keep(v, selectedGame, query))
  }

  /** The kept items appear in their original order. */
  lemma FilterVideosOrder(videos: seq<ArchiveVideo>, selectedGame: string, query: string)
    ensures Seqs.IsSubsequence(FilterVideos(videos, selectedGame, query), videos)
  {
    Seqs.FilterIsSubsequence(videos, v => Keep(v, selectedGame, query));
  }

  /** With no game chosen (or `Wszystkie`) and no query, nothing is removed. */
  lemma FilterVideosIdentity(videos: seq<ArchiveVideo>, selectedGame: string)
    requires selectedGame == "" || selectedGame == AllGames
    ensures FilterVideos(videos, selectedGame, "") == videos
  {
    Seqs.FilterAll(videos, v => Keep(v, selectedGame, ""));
  }

  /** Filtering the filtered list again changes nothing. */
  lemma FilterVideosIdempotent(videos: seq<ArchiveVideo>, selectedGame: string, query: string)
    ensures FilterVideos(FilterVideos(videos, selectedGame, query), selectedGame, query)
         == FilterVideos(videos, selectedGame, query)
  {
    Seqs.FilterIdempotent(videos, v => Keep(v, selectedGame, query));
  }

  // ---------------------------------------------------------------------
  // Page state
  // ---------------------------------------------------------------------

  datatype Page = Page(
    platform: Platform, videos: seq<ArchiveVideo>, loading: bool, error: Option<string>,
    selectedGame: string, query: string, games: seq<string>)

  /** The state before the first fetch completes. */
  function InitialPage(): (p: Page)
    ensures p.loading && p.videos == [] && p.error.None? && p.platform == TwitchPlatform
  {
    Page(TwitchPlatform, [], true, None, "", "", [])
  }

  /** Before the first fetch completes the list shows the spinner, there is
      no pagination and the game selector, which has no options yet, is
      disabled. */
  lemma InitialPageShowsSpinner()
    ensures BodyOf(InitialPage()) == Spinner
    ensures !ShowsPagination(InitialPage())
    ensures SelectorDisabled(InitialPage())
  {
  }

  /** A platform button: a new platform starts a fetch (the effect depends
      on the platform only). The previous videos, games, selected game and
      query stay until the fetch finishes. */
  function SelectPlatform(p: Page, q: Platform): (r: Page)
    ensures r.platform == q
    ensures r.videos == p.videos && r.games == p.games
    ensures r.selectedGame == p.selectedGame && r.query == p.query
    ensures q != p.platform ==> r.loading && r.error.None?
    ensures q == p.platform ==> r == p
  {
    if q == p.platform then p else p.(platform := q, loading := true, error := None)
  }

  /** The `finally` of the fetch: the loaded state is stored. */
  function Finish(p: Page, l: Loaded): (r: Page)
    ensures !r.loading && r.videos == l.videos && r.games == l.games && r.error == l.error
    ensures r.platform == p.platform && r.selectedGame == p.selectedGame && r.query == p.query
  {
    p.(videos := l.videos, games := l.games, error := l.error, loading := false)
  }

  /** The filter applied to the page as written: the selected game applies
      on both platforms. */
  function FilteredAsWritten(p: Page): seq<ArchiveVideo> {
    FilterVideos(p.videos, p.selectedGame, p.query)
  }

  /** The filter with the game condition restricted to Twitch, where the
      game selector is the only way to change it. */
  function Filtered(p: Page): seq<ArchiveVideo> {
    FilterVideos(p.videos, if p.platform == TwitchPlatform then p.selectedGame else "", p.query)
  }

  /** The game selector is disabled on YouTube and when there is at most one
      option. */
  predicate SelectorDisabled(p: Page) {
    p.platform == YouTubePlatform || |p.games| <= 1
  }

  /** The pagination block, shown for more than a page of filtered items. */
  predicate ShowsPagination(p: Page) {
    |FilteredAsWritten(p)| > PageSize
  }

  datatype Body = Spinner | ErrorMessage(text: string) | Grid(cards: seq<ArchiveVideo>) | NoResults

  /** The list area for a list of filtered items: a spinner while loading,
      else the error, else the grid of the items, else the empty message. */
  function BodyFor(p: Page, filtered: seq<ArchiveVideo>): (b: Body)
    ensures b.Grid? <==> !p.loading && p.error.None? && |filtered| > 0
    ensures b.Grid? ==> b.cards == filtered
    ensures b == Spinner <==> p.loading
  {
    if p.loading then Spinner
    else if p.error.Some? then ErrorMessage(p.error.value)
    else if |filtered| > 0 then Grid(filtered)
    else NoResults
  }

  /** The list area the page renders. */
  function BodyOf(p: Page): Body {
    BodyFor(p, FilteredAsWritten(p))
  }

  /** The list area and pagination with the corrected filter. */
  function BodyOfCorrected(p: Page): Body {
    BodyFor(p, Filtered(p))
  }

  predicate ShowsPaginationCorrected(p: Page) {
    |Filtered(p)| > PageSize
  }

  /** Finding: a game chosen on Twitch survives the switch to YouTube, where
      no item has a game. As written the filter then removes every YouTube
      item, while the selector that could clear the choice is disabled. */
  lemma StaleGameHidesYouTube(p: Page, fetched: seq<YouTube.Video>, day: string -> Option<string>)
    requires p.platform == TwitchPlatform
    requires p.selectedGame != "" && p.selectedGame != AllGames
    requires forall i | 0 <= i < |fetched| :: day(fetched[i].publishedAt).Some?
    ensures var r := Finish(SelectPlatform(p, YouTubePlatform), LoadYouTube(Done(fetched), day));
      && |r.videos| == |fetched|
      && FilteredAsWritten(r) == []
      && BodyOf(r) == NoResults && !ShowsPagination(r)
      && SelectorDisabled(r)
  {
    var r := Finish(SelectPlatform(p, YouTubePlatform), LoadYouTube(Done(fetched), day));
    forall v | v in r.videos
      ensures !Keep(v, r.selectedGame, r.query)
    {
      var i :| 0 <= i < |r.videos| && r.videos[i] == v;
      assert v.game.None?;
    }
    Seqs.FilterNone(r.videos, v => Keep(v, r.selectedGame, r.query));
  }

  /** With the game condition restricted to Twitch, the YouTube list depends
      on the query alone, and an empty query shows everything: after a
      successful load with videos the grid holds them all. */
  lemma YouTubeIgnoresGame(p: Page, game: string)
    requires p.platform == YouTubePlatform
    ensures Filtered(p.(selectedGame := game)) == Filtered(p)
    ensures p.query == "" ==> Filtered(p) == p.videos
    ensures p.query == "" && !p.loading && p.error.None? && |p.videos| > 0 ==>
      BodyOfCorrected(p) == Grid(p.videos)
    ensures p.query == "" ==> (ShowsPaginationCorrected(p) <==> |p.videos| > PageSize)
  {
    if p.query == "" {
      FilterVideosIdentity(p.videos, "");
    }
  }

  /** On Twitch the corrected filter is the filter as written, and so are
      the list area and pagination. */
  lemma TwitchFilterUnchanged(p: Page)
    requires p.platform == TwitchPlatform
    ensures Filtered(p) == FilteredAsWritten(p)
    ensures BodyOfCorrected(p) == BodyOf(p)
    ensures ShowsPaginationCorrected(p) == ShowsPagination(p)
  {
  }

  /** After a failed fetch: the error is shown, no pagination, and the
      selector is disabled. */
  lemma AfterFailure(p: Page, f: Failure)
    ensures var r := Finish(p, LoadFailed(f));
      && BodyOf(r) == ErrorMessage(ErrorText(f))
      && !ShowsPagination(r)
      && SelectorDisabled(r)
  {
  }

  /** After a successful Twitch load the selector is enabled exactly when
      there is at least one video, and the list shows the grid exactly when
      some video passes the filter. */
  lemma AfterTwitchLoad(p: Page, vods: seq<TwitchVod>, day: string -> Option<string>)
    requires p.platform == TwitchPlatform
    requires forall i | 0 <= i < |vods| :: day(vods[i].createdAt).Some?
    ensures var r := Finish(p, LoadTwitch(vods, day));
      && (SelectorDisabled(r) <==> |vods| == 0)
      && (BodyOf(r).Grid? <==> |FilteredAsWritten(r)| > 0)
      && (BodyOf(r).Grid? ==> BodyOf(r).cards == FilteredAsWritten(r))
      && (!BodyOf(r).Grid? ==> BodyOf(r) == NoResults)
  {
    var l := LoadTwitch(vods, day);
    if |vods| > 0 {
      TwitchItemFields(vods[0], day(vods[0].createdAt).value);
      assert l.videos[0].game.value in GameNames(l.videos);
      assert |Seqs.Dedup(GameNames(l.videos))| > 0;
    } else {
      assert GameNames(l.videos) == [];
    }
  }

  /** While a new platform loads, the spinner and the pagination of the
      previous platform's videos can show at the same time: pagination does
      not look at the loading state. */
  lemma SpinnerWithPagination(p: Page, q: Platform)
    requires q != p.platform
    requires |FilteredAsWritten(p.(platform := q))| > PageSize
    ensures BodyOf(SelectPlatform(p, q)) == Spinner
    ensures ShowsPagination(SelectPlatform(p, q))
  {
    assert SelectPlatform(p, q) == p.(platform := q, loading := true, error := None);
  }
}
