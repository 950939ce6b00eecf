/** The pure parts of the YouTube Data API client (src/lib/youtube.ts):
    reading the time part of an ISO 8601 duration and rendering it as a
    clock, choosing the best thumbnail, reading the API's numeric strings,
    and ranking videos by view count. */
module YouTube {
  import opened Wrappers
  import opened Text
  import Seqs

  // ---------------------------------------------------------------------
  // Durations
  // ---------------------------------------------------------------------

  /** Hours, minutes and seconds as read from a duration; no carry between
      the units (90 minutes stay 90 minutes). */
  datatype Clock = Clock(hours: nat, minutes: nat, seconds: nat)

  /** The optional group `(?:(\d+)X)?` of the duration pattern, tried at
      `p`. For a letter designator the group matches exactly when a
      non-empty run of digits at `p` is followed by the designator; it then
      reads that run and moves past the designator, and otherwise consumes
      nothing. */
  function OptionalGroup(s: string, p: nat, designator: char): (r: (Option<nat>, nat))
    requires p <= |s|
    ensures p <= r.1 <= |s|
    ensures r.0.None? <==> r.1 == p
    ensures !IsDigit(designator) ==>
      (r.0.Some? <==> exists j | p < j < |s| :: AllDigits(s[p..j]) && s[j] == designator)
    ensures r.0.Some? ==>
      && p + 1 < r.1 && AllDigits(s[p..r.1 - 1]) && s[r.1 - 1] == designator
      && r.0.value == ParseDecimal(s[p..r.1 - 1])
  {
    var e := RunEnd(s, p);
    GroupRunIsMaximal(s, p, designator);
    if p < e < |s| && s[e] == designator then (Some(ParseDecimal(s[p..e])), e + 1) else (None, p)
  }

  /** Any run of digits at `p` followed by a non-digit designator is the
      maximal run there. */
  lemma GroupRunIsMaximal(s: string, p: nat, designator: char)
    requires p <= |s|
    ensures !IsDigit(designator) ==>
      forall j | p < j < |s| && AllDigits(s[p..j]) && s[j] == designator :: j == RunEnd(s, p)
  {
    if !IsDigit(designator) {
      forall j | p < j < |s| && AllDigits(s[p..j]) && s[j] == designator
        ensures j == RunEnd(s, p)
      {
        RunEndUnique(s, p, j);
      }
    }
  }

  /** The unanchored match of `/PT(?:(\d+)H)?(?:(\d+)M)?(?:(\d+)S)?/`: it
      starts at the first `PT`, and each absent group counts as zero.
      `None` when there is no `PT` at all. */
  function ParseYouTubeDuration(s: string): Option<Clock> {
    match IndexOf(s, "PT")
    case None => None
    case Some(i) =>
      var (h, p1) := OptionalGroup(s, i + 2, 'H');
      var (m, p2) := OptionalGroup(s, p1, 'M');
      var (sec, _) := OptionalGroup(s, p2, 'S');
      Some(Clock(h.GetOr(0), m.GetOr(0), sec.GetOr(0)))
  }

  /** `H:MM:SS` when there are hours, `M:SS` otherwise. */
  function FormatClock(c: Clock): string {
    if c.hours > 0 then
      NatToString(c.hours) + ":" + PadTwo(NatToString(c.minutes)) + ":" + PadTwo(NatToString(c.seconds))
    else
      NatToString(c.minutes) + ":" + PadTwo(NatToString(c.seconds))
  }

  /** `formatYouTubeDuration`: `0:00` when the pattern does not match. */
  function FormatYouTubeDuration(duration: string): (r: string)
    ensures !Contains(duration, "PT") ==> r == "0:00"
    ensures Contains(duration, "PT") ==> r == FormatClock(ParseYouTubeDuration(duration).value)
  {
    match ParseYouTubeDuration(duration)
    case None => "0:00"
    case Some(c) => FormatClock(c)
  }

  /** The rendered clock splits on `:` into three fields (hours without
      padding, minutes and seconds padded to two digits) exactly when there
      are hours, and into two (minutes unpadded, seconds padded) otherwise;
      each field reads back as its component. */
  lemma ClockFields(c: Clock)
    ensures var f := Split(FormatClock(c), ':');
      && (c.hours > 0 ==>
            && |f| == 3
            && f[0] == NatToString(c.hours)
            && AllDigits(f[1]) && |f[1]| >= 2 && ParseDecimal(f[1]) == c.minutes
            && AllDigits(f[2]) && |f[2]| >= 2 && ParseDecimal(f[2]) == c.seconds)
      && (c.hours == 0 ==>
            && |f| == 2
            && f[0] == NatToString(c.minutes)
            && AllDigits(f[1]) && |f[1]| >= 2 && ParseDecimal(f[1]) == c.seconds)
  {
    var ms := PadTwo(NatToString(c.minutes));
    var ss := PadTwo(NatToString(c.seconds));
    if c.hours > 0 {
      ThreeFields(NatToString(c.hours), ms, ss);
    } else {
      TwoFields(NatToString(c.minutes), ss);
    }
  }

  // ---------------------------------------------------------------------
  // The ISO 8601 form YouTube emits, and reading it back
  // ---------------------------------------------------------------------

  /** One designated component: omitted when zero. */
  function Part(n: nat, designator: char): string {
    if n == 0 then "" else NatToString(n) + [designator]
  }

  /** The time part of an ISO 8601 duration with designators (section
      4.4.3.2 of ISO 8601:2004) as YouTube reports it: zero components are
      omitted, and the zero duration is `PT0S`. */
  function IsoDuration(c: Clock): string {
    if c == Clock(0, 0, 0) then "PT0S"
    else "PT" + Part(c.hours, 'H') + Part(c.minutes, 'M') + Part(c.seconds, 'S')
  }

  /** A numeral `d` at `p` that is followed by a non-digit is read by the
      group exactly when that non-digit is the group's designator. */
  lemma GroupAt(s: string, p: nat, d: string, designator: char)
    requires |d| > 0 && AllDigits(d) && p + |d| < |s|
    requires s[p..p + |d|] == d && !IsDigit(s[p + |d|])
    ensures OptionalGroup(s, p, designator) ==
      if s[p + |d|] == designator then (Some(ParseDecimal(d)), p + |d| + 1) else (None, p)
  {
    RunEndUnique(s, p, p + |d|);
  }

  /** At the end of the string every group is absent. */
  lemma GroupAtEnd(s: string, designator: char)
    ensures OptionalGroup(s, |s|, designator) == (None, |s|)
  {
  }

  /** A positive component followed by a designator is read by the group
      of that designator and skipped by every other group. */
  lemma PartAt(s: string, p: nat, n: nat, designator: char, rest: string, group: char)
    requires n > 0 && designator in "HMS"
    requires p <= |s| && s[p..] == Part(n, designator) + rest
    ensures var (g, q) := OptionalGroup(s, p, group);
      if designator == group then g == Some(n) && q <= |s| && s[q..] == rest
      else g == None && q == p
  {
    var d := NatToString(n);
    assert s[p..p + |d|] == d;
    assert s[p + |d|] == designator;
    GroupAt(s, p, d, group);
    assert s[p + |d| + 1..] == rest;
  }

  /** Reading the seconds group over `Part(sec, 'S')` at the end. */
  lemma SecondsStage(s: string, p: nat, sec: nat)
    requires p <= |s| && s[p..] == Part(sec, 'S')
    ensures OptionalGroup(s, p, 'S').0.GetOr(0) == sec
  {
    if sec > 0 {
      PartAt(s, p, sec, 'S', "", 'S');
    }
  }

  /** Reading the minutes group over `Part(m, 'M') + Part(sec, 'S')`. */
  lemma MinutesStage(s: string, p: nat, m: nat, sec: nat)
    requires p <= |s| && s[p..] == Part(m, 'M') + Part(sec, 'S')
    ensures var (g, q) := OptionalGroup(s, p, 'M');
      g.GetOr(0) == m && q <= |s| && s[q..] == Part(sec, 'S')
  {
    if m > 0 {
      PartAt(s, p, m, 'M', Part(sec, 'S'), 'M');
    } else if sec > 0 {
      PartAt(s, p, sec, 'S', "", 'M');
    }
  }

  /** Reading the hours group over the three designated parts. */
  lemma HoursStage(s: string, p: nat, c: Clock)
    requires p <= |s| && s[p..] == Part(c.hours, 'H') + Part(c.minutes, 'M') + Part(c.seconds, 'S')
    ensures var (g, q) := OptionalGroup(s, p, 'H');
      g.GetOr(0) == c.hours && q <= |s| && s[q..] == Part(c.minutes, 'M') + Part(c.seconds, 'S')
  {
    var tail := Part(c.minutes, 'M') + Part(c.seconds, 'S');
    if c.hours > 0 {
      assert s[p..] == Part(c.hours, 'H') + tail;
      PartAt(s, p, c.hours, 'H', tail, 'H');
    } else if c.minutes > 0 {
      PartAt(s, p, c.minutes, 'M', Part(c.seconds, 'S'), 'H');
    } else if c.seconds > 0 {
      PartAt(s, p, c.seconds, 'S', "", 'H');
    }
  }

  /** Reading back the ISO 8601 form gives the clock it was written from:
      the parser inverts the encoding for every clock. */
  lemma IsoDurationRoundTrip(c: Clock)
    ensures ParseYouTubeDuration(IsoDuration(c)) == Some(c)
  {
    var s := IsoDuration(c);
    FirstOccurrenceAfter("", "PT", s[2..]);
    assert "" + "PT" + s[2..] == s;
    if c == Clock(0, 0, 0) {
      GroupAt(s, 2, "0", 'H');
      GroupAt(s, 2, "0", 'M');
      assert s[2..3] == "0";
      GroupAt(s, 2, "0", 'S');
    } else {
      HoursStage(s, 2, c);
      var (_, p1) := OptionalGroup(s, 2, 'H');
      MinutesStage(s, p1, c.minutes, c.seconds);
      var (_, p2) := OptionalGroup(s, p1, 'M');
      SecondsStage(s, p2, c.seconds);
    }
  }

  /** Formatting a duration YouTube reports gives the clock of its
      components, whose fields read back as the components. */
  lemma FormatIsoDuration(c: Clock)
    ensures FormatYouTubeDuration(IsoDuration(c)) == FormatClock(c)
  {
    IsoDurationRoundTrip(c);
  }

  /** Worked case: all three units present. */
  lemma ExampleAllUnits()
    ensures FormatYouTubeDuration("PT1H2M3S") == "1:02:03"
  {
    var c := Clock(1, 2, 3);
    assert IsoDuration(c) == "PT1H2M3S" by {
      assert Part(1, 'H') == "1H" && Part(2, 'M') == "2M" && Part(3, 'S') == "3S";
    }
    assert FormatClock(c) == "1:02:03" by {
      assert NatToString(1) == "1" && NatToString(2) == "2" && NatToString(3) == "3";
      assert PadTwo("2") == "02" && PadTwo("3") == "03";
    }
    FormatIsoDuration(c);
  }

  /** Worked case: minutes past 59 are not carried into hours. */
  lemma ExampleNoCarry()
    ensures FormatYouTubeDuration("PT90M") == "90:00"
  {
    NinetyMinutes();
    FormatIsoDuration(Clock(0, 90, 0));
  }

  lemma NinetyMinutes()
    ensures IsoDuration(Clock(0, 90, 0)) == "PT90M"
    ensures FormatClock(Clock(0, 90, 0)) == "90:00"
  {
    assert NatToString(9) == "9" && NatToString(90) == "90";
    assert PadTwo(NatToString(0)) == "00";
  }

  /** Worked case: the zero duration YouTube reports gives `0:00`. */
  lemma ExampleZero()
    ensures FormatYouTubeDuration("PT0S") == "0:00"
  {
    ZeroClock();
    FormatIsoDuration(Clock(0, 0, 0));
  }

  lemma ZeroClock()
    ensures IsoDuration(Clock(0, 0, 0)) == "PT0S"
    ensures FormatClock(Clock(0, 0, 0)) == "0:00"
  {
    assert PadTwo(NatToString(0)) == "00";
  }

  /** Worked case: a time part without any component gives `0:00`. */
  lemma ExampleEmptyTime()
    ensures FormatYouTubeDuration("PT") == "0:00"
  {
    assert IndexOf("PT", "PT") == Some(0) by {
      FirstOccurrenceAfter("", "PT", "");
    }
    GroupAtEnd("PT", 'H');
    assert ParseYouTubeDuration("PT") == Some(Clock(0, 0, 0));
    ZeroClock();
  }

  /** Worked cases: a day part before `T` leaves no `PT`, and neither does
      the empty string. */
  lemma ExampleNoTimePart()
    ensures FormatYouTubeDuration("P1DT2H") == "0:00"
    ensures FormatYouTubeDuration("") == "0:00"
  {
    NoPT("P1DT2H");
    NoPT("");
  }

  /** A string whose every `P` is followed by something other than `T`
      does not contain `PT`. */
  lemma NoPT(s: string)
    requires forall i | 0 <= i < |s| - 1 :: s[i] == 'P' ==> s[i + 1] != 'T'
    ensures !Contains(s, "PT")
  {
    forall i | 0 <= i
      ensures !OccursAt(s, "PT", i)
    {
      if i + 2 <= |s| {
        assert s[i..i + 2][0] == s[i] && s[i..i + 2][1] == s[i + 1];
      }
    }
  }

  // ---------------------------------------------------------------------
  // Videos
  // ---------------------------------------------------------------------

  /** The thumbnail sizes the site reads; `standard` and `maxres` may be
      missing from the API response. */
  datatype Thumbnails = Thumbnails(high: string, standard: Option<string>, maxres: Option<string>)

  /** `a || b || ... || last` over optional strings: the first candidate
      that is present and non-empty, else `last`. */
  function FirstPresent(candidates: seq<Option<string>>, last: string): string
    decreases |candidates|
  {
    if |candidates| == 0 then last
    else if candidates[0].GetOr("") != "" then candidates[0].value
    else FirstPresent(candidates[1..], last)
  }

  /** `maxres?.url || standard?.url || high.url`: the largest thumbnail
      whose URL is present and non-empty, falling back to `high`. */
  function BestThumbnail(t: Thumbnails): (url: string)
    ensures url in {t.maxres.GetOr(""), t.standard.GetOr(""), t.high}
    ensures t.maxres.GetOr("") != "" ==> url == t.maxres.value
    ensures t.maxres.GetOr("") == "" && t.standard.GetOr("") != "" ==> url == t.standard.value
    ensures t.maxres.GetOr("") == "" && t.standard.GetOr("") == "" ==> url == t.high
  {
    if t.maxres.GetOr("") != "" then t.maxres.value
    else if t.standard.GetOr("") != "" then t.standard.value
    else t.high
  }

  /** The thumbnail chosen is the `||` chain over the sizes from the
      largest down; it is `high` only when neither larger size is usable or
      `high` is the larger one's URL. */
  lemma BestThumbnailIsFirstPresent(t: Thumbnails)
    ensures BestThumbnail(t) == FirstPresent([t.maxres, t.standard], t.high)
    ensures BestThumbnail(t) == t.high <==>
      (t.maxres.GetOr("") == "" && t.standard.GetOr("") == "") ||
      (t.maxres.GetOr("") != "" && t.maxres.value == t.high) ||
      (t.maxres.GetOr("") == "" && t.standard.GetOr("") != "" && t.standard.value == t.high)
  {
    var c := [t.maxres, t.standard];
    assert c[0] == t.maxres && c[1..] == [t.standard];
    assert FirstPresent(c, t.high) == if t.maxres.GetOr("") != "" then t.maxres.value else FirstPresent([t.standard], t.high);
    assert [t.standard][1..] == [];
    assert FirstPresent([t.standard], t.high) == if t.standard.GetOr("") != "" then t.standard.value else FirstPresent([], t.high);
  }

  /** A statistic that is a non-empty digit string reads as its value. */
  lemma StatisticReads(s: string)
    ensures |s| > 0 && AllDigits(s) ==> ParseInt(s) == Some(ParseDecimal(s))
  {
    if |s| > 0 && AllDigits(s) {
      ParseIntDigits(s);
    }
  }

  /** A video item of the `videos` endpoint: statistics arrive as strings. */
  datatype VideoItem = VideoItem(
    id: string, title: string, description: string, publishedAt: string,
    thumbnails: Thumbnails, channelTitle: string, channelId: string,
    liveBroadcastContent: string, duration: string,
    viewCount: string, likeCount: string, commentCount: string)

  /** `YouTubeVideo`: counts are numbers, `None` standing for `NaN`. */
  datatype Video = Video(
    id: string, title: string, description: string, publishedAt: string,
    thumbnails: Thumbnails, channelTitle: string, channelId: string,
    liveBroadcastContent: string, duration: Option<string>,
    viewCount: Option<int>, likeCount: Option<int>, commentCount: Option<int>)

  predicate IsSpace(c: char) {
    c in {' ', '\t', '\n', '\r', '\U{B}', '\U{C}'}
  }

  /** `parseInt(s, 10)`: leading white space and one sign are skipped, then
      the longest run of digits is read; `None` (`NaN`) when there is none. */
  function ParseInt(s: string): (r: Option<int>)
    decreases |s|
  {
    if |s| > 0 && IsSpace(s[0]) then ParseInt(s[1..])
    else
      var sign, p := if |s| > 0 && s[0] == '-' then -1 else 1, if |s| > 0 && (s[0] == '-' || s[0] == '+') then 1 else 0;
      var e := RunEnd(s, p);
      if e == p then None else Some(sign * ParseDecimal(s[p..e]))
  }

  /** The statistics YouTube returns are numerals, and `parseInt` reads
      them back; an empty statistic is `NaN`. */
  lemma ParseIntNumeral(n: nat)
    ensures ParseInt(NatToString(n)) == Some(n)
    ensures ParseInt("") == None
  {
    ParseIntDigits(NatToString(n));
  }

  /** `parseInt` of a non-empty digit string is its decimal value, leading
      zeros included. */
  lemma ParseIntDigits(s: string)
    requires |s| > 0 && AllDigits(s)
    ensures ParseInt(s) == Some(ParseDecimal(s))
  {
    assert !IsSpace(s[0]);
    assert RunEnd(s, 0) == |s|;
    assert s[0..|s|] == s;
  }

  /** The mapping of an API item to a `YouTubeVideo`. A video ranks by the
      decimal value of its view statistic, and a video whose statistic has
      no digits to read ranks as zero. */
  function FromItem(item: VideoItem): (v: Video)
    ensures |item.viewCount| > 0 && AllDigits(item.viewCount) ==>
      ViewKey(v) == ParseDecimal(item.viewCount) && v.viewCount.Some?
    ensures item.viewCount == "" ==> v.viewCount.None? && ViewKey(v) == 0
  {
    StatisticReads(item.viewCount);
    Video(item.id, item.title, item.description, item.publishedAt, item.thumbnails,
          item.channelTitle, item.channelId, item.liveBroadcastContent, Some(item.duration),
          ParseInt(item.viewCount), ParseInt(item.likeCount), ParseInt(item.commentCount))
  }

  function FromItems(items: seq<VideoItem>): (vs: seq<Video>)
    ensures |vs| == |items|
    ensures forall i | 0 <= i < |items| :: vs[i] == FromItem(items[i])
  {
    seq(|items|, i requires 0 <= i < |items| => FromItem(items[i]))
  }

  // ---------------------------------------------------------------------
  // Ranking by views
  // ---------------------------------------------------------------------

  /** `(v.viewCount || 0)`: a missing or `NaN` count ranks as zero. */
  function ViewKey(v: Video): int {
    v.viewCount.GetOr(0)
  }

  ghost predicate SortedByViews(s: seq<Video>) {
    forall i, j | 0 <= i < j < |s| :: ViewKey(s[i]) >= ViewKey(s[j])
  }

  /** Inserts `v` before the first element ranked no higher, so that among
      equal counts earlier elements stay first. */
  function Insert(v: Video, s: seq<Video>): (r: seq<Video>)
    ensures multiset(r) == multiset(s) + multiset{v}
    ensures forall x | x in r :: x == v || x in s
    ensures SortedByViews(s) ==> SortedByViews(r)
    decreases |s|
  {
    if |s| == 0 then [v]
    else if ViewKey(s[0]) <= ViewKey(v) then
      assert SortedByViews(s) ==> forall y | y in s :: ViewKey(y) <= ViewKey(v);
      SortedCons(v, s);
      [v] + s
    else
      var t := Insert(v, s[1..]);
      assert s == [s[0]] + s[1..];
      assert SortedByViews(s) ==> forall y | y in t :: ViewKey(y) <= ViewKey(s[0]);
      SortedCons(s[0], t);
      [s[0]] + t
  }

  /** Putting a video ranked at least as high as all others in front keeps
      a sorted sequence sorted. */
  lemma SortedCons(x: Video, t: seq<Video>)
    ensures (forall y | y in t :: ViewKey(y) <= ViewKey(x)) && SortedByViews(t) ==> SortedByViews([x] + t)
  {
  }

  /** `.sort((a, b) => (b.viewCount || 0) - (a.viewCount || 0))`: a stable
      sort into non-increasing view counts. */
  function SortByViews(s: seq<Video>): (r: seq<Video>)
    ensures multiset(r) == multiset(s)
    ensures SortedByViews(r)
    decreases |s|
  {
    if |s| == 0 then []
    else
      assert s == [s[0]] + s[1..];
      Insert(s[0], SortByViews(s[1..]))
  }

  /** The elements with view count `k`, in order. */
  function WithViews(s: seq<Video>, k: int): seq<Video> {
    Seqs.Filter(s, v => ViewKey(v) == k)
  }

  lemma {:induction false} InsertStable(v: Video, s: seq<Video>, k: int)
    ensures WithViews(Insert(v, s), k) ==
      if ViewKey(v) == k then [v] + WithViews(s, k) else WithViews(s, k)
    decreases |s|
  {
    if |s| > 0 && ViewKey(s[0]) > ViewKey(v) {
      InsertStable(v, s[1..], k);
      var r := [s[0]] + Insert(v, s[1..]);
      assert r[0] == s[0] && r[1..] == Insert(v, s[1..]);
    } else if |s| > 0 {
      var r := [v] + s;
      assert r[0] == v && r[1..] == s;
    }
  }

  /** The sort is stable: videos with the same count keep their relative
      order. */
  lemma {:induction false} SortStable(s: seq<Video>, k: int)
    ensures WithViews(SortByViews(s), k) == WithViews(s, k)
    decreases |s|
  {
    if |s| > 0 {
      SortStable(s[1..], k);
      InsertStable(s[0], SortByViews(s[1..]), k);
    }
  }

  /** `.slice(0, limit)`: the end index JavaScript uses, a negative limit
      counting back from the end. */
  function SliceEnd(n: nat, limit: int): (e: nat)
    ensures e <= n
    ensures 0 <= limit ==> e == if limit < n then limit else n
  {
    if limit < 0 then (if n + limit < 0 then 0 else n + limit)
    else if limit < n then limit
    else n
  }

  /** The ranking tail of `getPopularYouTubeVideos`: map the items, sort
      them by views and keep the first `limit`. The result is a sorted
      selection of the mapped items of the expected length, and no item
      left out has more views than any item kept. */
  function PopularVideos(items: seq<VideoItem>, limit: int): (r: seq<Video>)
    ensures |r| == SliceEnd(|items|, limit)
    ensures SortedByViews(r)
    ensures multiset(r) <= multiset(FromItems(items))
    ensures forall v | v in multiset(FromItems(items)) - multiset(r) ::
      forall i | 0 <= i < |r| :: ViewKey(v) <= ViewKey(r[i])
  {
    var sorted := SortByViews(FromItems(items));
    assert |sorted| == |items| by {
      assert |multiset(sorted)| == |multiset(FromItems(items))|;
    }
    var k := SliceEnd(|items|, limit);
    TopOfSorted(sorted, k);
    sorted[..k]
  }

  /** The first `k` videos of a sorted sequence are sorted, and every video
      after them is ranked no higher than any of them. */
  lemma TopOfSorted(sorted: seq<Video>, k: nat)
    requires SortedByViews(sorted) && k <= |sorted|
    ensures SortedByViews(sorted[..k])
    ensures multiset(sorted[..k]) <= multiset(sorted)
    ensures forall v | v in multiset(sorted) - multiset(sorted[..k]) ::
      forall i | 0 <= i < k :: ViewKey(v) <= ViewKey(sorted[i])
  {
    var r := sorted[..k];
    var rest := sorted[k..];
    assert sorted == r + rest;
    assert multiset(sorted) - multiset(r) == multiset(rest);
    forall v | v in multiset(rest)
      ensures forall i | 0 <= i < k :: ViewKey(v) <= ViewKey(sorted[i])
    {
      var j :| 0 <= j < |rest| && rest[j] == v;
      assert sorted[k + j] == v;
    }
  }
}
