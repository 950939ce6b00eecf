/** The pure parts of the Twitch Helix client (src/lib/twitch.ts): the
    thumbnail URL template, the `1h2m3s` duration reader and the
    application-token cache, with the token request abstracted as an
    input. */
module Twitch {
  import opened Wrappers
  import opened Text

  // ---------------------------------------------------------------------
  // Thumbnail template
  // ---------------------------------------------------------------------

  /** `formatTwitchThumbnailUrl(url, width, height)`: the first `{width}`
      and then the first `{height}` are replaced by the numbers. */
  function FormatThumbnailUrl(url: string, width: nat, height: nat): string {
    ReplaceFirst(ReplaceFirst(url, "{width}", NatToString(width)), "{height}", NatToString(height))
  }

  /** A URL without placeholders comes back unchanged. */
  lemma ThumbnailWithoutPlaceholders(url: string, width: nat, height: nat)
    requires !Contains(url, "{width}") && !Contains(url, "{height}")
    ensures FormatThumbnailUrl(url, width, height) == url
  {
  }

  /** In a template `pre + "{width}" + mid + "{height}" + post` where `pre`
      holds no `{width}` and nothing before the `{height}` after filling in
      the width holds a `{height}`, exactly those two placeholders are
      filled; other braces, and further placeholders after them, stay. */
  lemma ThumbnailFillsFirstPlaceholders(pre: string, mid: string, post: string, width: nat, height: nat)
    requires !Contains(pre, "{width}")
    requires !Contains(pre + NatToString(width) + mid, "{height}")
    ensures FormatThumbnailUrl(pre + "{width}" + mid + "{height}" + post, width, height)
         == pre + NatToString(width) + mid + NatToString(height) + post
  {
    var w := NatToString(width);
    assert "{width}"[1..] == "width}";
    ReplaceFirstAfterAbsent(pre, "{width}", mid + "{height}" + post, w);
    assert pre + "{width}" + mid + "{height}" + post == pre + "{width}" + (mid + "{height}" + post);
    assert pre + w + (mid + "{height}" + post) == (pre + w + mid) + "{height}" + post;
    assert "{height}"[1..] == "height}";
    ReplaceFirstAfterAbsent(pre + w + mid, "{height}", post, NatToString(height));
  }

  /** The same with `{height}` before `{width}`: filling the width first
      leaves the `{height}` in front of it to be found by the second
      replacement. */
  lemma ThumbnailHeightFirst(pre: string, mid: string, post: string, width: nat, height: nat)
    requires !Contains(pre + "{height}" + mid, "{width}")
    requires !Contains(pre, "{height}")
    ensures FormatThumbnailUrl(pre + "{height}" + mid + "{width}" + post, width, height)
         == pre + NatToString(height) + mid + NatToString(width) + post
  {
    var w := NatToString(width);
    assert "{width}"[1..] == "width}";
    ReplaceFirstAfterAbsent(pre + "{height}" + mid, "{width}", post, w);
    assert pre + "{height}" + mid + w + post == pre + "{height}" + (mid + w + post);
    assert "{height}"[1..] == "height}";
    ReplaceFirstAfterAbsent(pre, "{height}", mid + w + post, NatToString(height));
  }

  // ---------------------------------------------------------------------
  // Durations
  // ---------------------------------------------------------------------

  /** The regular expression `/(\d+)X/` matches at `i`, its digits ending
      at `j` where the designator `X` stands. */
  predicate RunMatch(s: string, designator: char, i: int, j: int) {
    0 <= i < j < |s| && (forall k | i <= k < j :: IsDigit(s[k])) && s[j] == designator
  }

  /** For a non-digit designator a match at `i` ends at one place only. */
  lemma RunMatchUnique(s: string, designator: char, i: int, j: int, j': int)
    requires !IsDigit(designator)
    requires RunMatch(s, designator, i, j) && RunMatch(s, designator, i, j')
    ensures j == j'
  {
    assert !IsDigit(s[j]) && !IsDigit(s[j']);
  }

  /** The search of the regex engine from position `k` on: the leftmost
      start of a match and where its digits end. */
  function ScanRun(s: string, designator: char, k: nat): (r: Option<(nat, nat)>)
    requires k <= |s| && !IsDigit(designator)
    ensures r.Some? ==> k <= r.value.0 && RunMatch(s, designator, r.value.0, r.value.1)
    ensures forall i, j | k <= i && (r.None? || i < r.value.0) :: !RunMatch(s, designator, i, j)
    decreases |s| - k
  {
    if k == |s| then None
    else if !IsDigit(s[k]) then ScanRun(s, designator, k + 1)
    else
      var e := RunEnd(s, k);
      if e < |s| && s[e] == designator then Some((k, e))
      else
        assert forall i, j | k <= i < e :: !RunMatch(s, designator, i, j) by {
          forall i, j | k <= i < e
            ensures !RunMatch(s, designator, i, j)
          {
            if i < j < |s| {
              if j < e {
                assert IsDigit(s[j]);
              } else if j > e {
                assert !IsDigit(s[e]);
              }
            }
          }
        }
        ScanRun(s, designator, e)
  }

  /** `duration.match(/(\d+)X/)?.[1]`: the digits of the leftmost match. */
  function Capture(s: string, designator: char): Option<string>
    requires !IsDigit(designator)
  {
    match ScanRun(s, designator, 0)
    case None => None
    case Some((i, j)) => Some(s[i..j])
  }

  /** What the capture is: `None` exactly when no digit run anywhere is
      followed by the designator; otherwise a whole maximal digit run, from
      the leftmost match. */
  lemma CaptureIsLeftmostRun(s: string, designator: char)
    requires !IsDigit(designator)
    ensures Capture(s, designator).None? <==> forall i, j :: !RunMatch(s, designator, i, j)
    ensures Capture(s, designator).Some? ==>
      exists i, j :: && RunMatch(s, designator, i, j)
                     && Capture(s, designator).value == s[i..j]
                     && (i == 0 || !IsDigit(s[i - 1]))
                     && forall i', j' | i' < i :: !RunMatch(s, designator, i', j')
  {
    match ScanRun(s, designator, 0)
    case None =>
    case Some((i, j)) =>
      if i > 0 && IsDigit(s[i - 1]) {
        assert RunMatch(s, designator, i - 1, j);
      }
  }

  /** The match found first determines the capture. */
  lemma CaptureAt(s: string, designator: char, i: nat, j: nat)
    requires !IsDigit(designator)
    requires RunMatch(s, designator, i, j)
    requires forall i', j' | i' < i :: !RunMatch(s, designator, i', j')
    ensures Capture(s, designator) == Some(s[i..j])
  {
    var r := ScanRun(s, designator, 0);
    assert r.Some? && r.value.0 == i;
    RunMatchUnique(s, designator, i, j, r.value.1);
  }

  /** A string without the designator has no match for it. */
  lemma CaptureAbsent(s: string, designator: char)
    requires !IsDigit(designator) && designator !in s
    ensures Capture(s, designator) == None
  {
    assert forall j | 0 <= j < |s| :: s[j] != designator;
  }

  /** No match starts at or before `k` when `k` holds a non-digit and the
      designator does not occur up to `k`. */
  lemma NoMatchUpTo(s: string, designator: char, k: nat)
    requires k < |s| && !IsDigit(s[k]) && designator !in s[..k + 1]
    ensures forall i, j | i <= k :: !RunMatch(s, designator, i, j)
  {
    forall i, j | i <= k
      ensures !RunMatch(s, designator, i, j)
    {
      if 0 <= i < j < |s| {
        if j <= k {
          assert s[j] == s[..k + 1][j];
        } else {
          assert i <= k < j && !IsDigit(s[k]);
        }
      }
    }
  }

  /** The hour field: the captured digits verbatim, or `0`. */
  function HourField(s: string): (f: string)
    ensures AllDigits(f) && |f| >= 1
    ensures Capture(s, 'h').None? ==> f == "0"
    ensures Capture(s, 'h').Some? ==> f == Capture(s, 'h').value
  {
    match Capture(s, 'h')
    case None => "0"
    case Some(t) =>
      CaptureDigits(s, 'h');
      t
  }

  /** A minute or second field: the captured digits padded to two, or `00`. */
  function PaddedField(s: string, designator: char): (f: string)
    requires designator in "ms"
    ensures AllDigits(f) && |f| >= 2
    ensures Capture(s, designator).None? ==> f == "00"
    ensures Capture(s, designator).Some? ==> f == PadTwo(Capture(s, designator).value)
  {
    match Capture(s, designator)
    case None => "00"
    case Some(t) =>
      CaptureDigits(s, designator);
      PadTwo(t)
  }

  lemma CaptureDigits(s: string, designator: char)
    requires !IsDigit(designator) && Capture(s, designator).Some?
    ensures AllDigits(Capture(s, designator).value)
    ensures |Capture(s, designator).value| >= 1
  {
    var (i, j) := ScanRun(s, designator, 0).value;
    assert Capture(s, designator).value == s[i..j];
  }

  /** `formatTwitchDuration`. */
  function FormatTwitchDuration(duration: string): string {
    HourField(duration) + ":" + PaddedField(duration, 'm') + ":" + PaddedField(duration, 's')
  }

  /** The rendered duration always has three `:`-separated numeric fields:
      the hour digits as captured (`0` when absent), and minutes and seconds
      of at least two digits (`00` when absent). */
  lemma TwitchFields(duration: string)
    ensures var f := Split(FormatTwitchDuration(duration), ':');
      && |f| == 3
      && f[0] == HourField(duration) && AllDigits(f[0]) && |f[0]| >= 1
      && f[1] == PaddedField(duration, 'm') && AllDigits(f[1]) && |f[1]| >= 2
      && f[2] == PaddedField(duration, 's') && AllDigits(f[2]) && |f[2]| >= 2
      && (Capture(duration, 'h').None? ==> f[0] == "0")
      && (Capture(duration, 'm').None? ==> f[1] == "00")
      && (Capture(duration, 's').None? ==> f[2] == "00")
  {
    var h, m, sec := HourField(duration), PaddedField(duration, 'm'), PaddedField(duration, 's');
    assert FormatTwitchDuration(duration) == h + ":" + m + ":" + sec;
    ThreeFields(h, m, sec);
  }

  /** The field a component is rendered into reads back as the component. */
  ghost predicate FieldReads(f: string, n: nat) {
    AllDigits(f) && ParseDecimal(f) == n
  }

  /** Hours, minutes and seconds. */
  datatype Span = Span(hours: nat, minutes: nat, seconds: nat)

  /** The form Twitch reports a video's length in, such as `3h8m33s`:
      leading zero units are left out, down to the seconds. */
  function TwitchDurationText(d: Span): string {
    if d.hours > 0 then
      NatToString(d.hours) + "h" + NatToString(d.minutes) + "m" + NatToString(d.seconds) + "s"
    else if d.minutes > 0 then
      NatToString(d.minutes) + "m" + NatToString(d.seconds) + "s"
    else NatToString(d.seconds) + "s"
  }

  /** Reading a numeral followed by its designator after a prefix that has
      no match for that designator. */
  lemma CaptureAfter(pre: string, n: nat, designator: char, post: string)
    requires !IsDigit(designator) && designator !in pre
    requires |pre| == 0 || !IsDigit(pre[|pre| - 1])
    ensures Capture(pre + NatToString(n) + [designator] + post, designator) == Some(NatToString(n))
  {
    var d := NatToString(n);
    var s := pre + d + [designator] + post;
    var i, j := |pre|, |pre| + |d|;
    assert s[i..j] == d;
    assert RunMatch(s, designator, i, j) by {
      forall k | i <= k < j ensures IsDigit(s[k]) {
        assert s[k] == d[k - i];
      }
    }
    if |pre| > 0 {
      assert s[..|pre|] == pre;
      NoMatchUpTo(s, designator, |pre| - 1);
    }
    CaptureAt(s, designator, i, j);
  }

  /** Every duration in Twitch's form is rendered into three fields that
      read back as its hours, minutes and seconds. */
  lemma TwitchDurationRoundTrip(d: Span)
    ensures var f := Split(FormatTwitchDuration(TwitchDurationText(d)), ':');
      |f| == 3 && FieldReads(f[0], d.hours) && FieldReads(f[1], d.minutes) && FieldReads(f[2], d.seconds)
  {
    var s := TwitchDurationText(d);
    TwitchFields(s);
    HourReads(d);
    MinuteReads(d);
    SecondReads(d);
  }

  lemma HourReads(d: Span)
    ensures FieldReads(HourField(TwitchDurationText(d)), d.hours)
  {
    HoursCaptured(d);
  }

  lemma MinuteReads(d: Span)
    ensures FieldReads(PaddedField(TwitchDurationText(d), 'm'), d.minutes)
  {
    MinutesCaptured(d);
    LeadingZero("0");
  }

  lemma SecondReads(d: Span)
    ensures FieldReads(PaddedField(TwitchDurationText(d), 's'), d.seconds)
  {
    SecondsCaptured(d);
  }

  /** The hours are captured exactly when they are written. */
  lemma HoursCaptured(d: Span)
    ensures Capture(TwitchDurationText(d), 'h') == if d.hours > 0 then Some(NatToString(d.hours)) else None
  {
    var s := TwitchDurationText(d);
    var hs, ms, ss := NatToString(d.hours), NatToString(d.minutes), NatToString(d.seconds);
    if d.hours > 0 {
      CaptureAfter("", d.hours, 'h', ms + "m" + ss + "s");
      assert s == "" + hs + ['h'] + (ms + "m" + ss + "s");
    } else {
      CaptureAbsent(s, 'h');
    }
  }

  /** The minutes are captured exactly when they are written. */
  lemma MinutesCaptured(d: Span)
    ensures Capture(TwitchDurationText(d), 'm')
         == if d.hours > 0 || d.minutes > 0 then Some(NatToString(d.minutes)) else None
  {
    var s := TwitchDurationText(d);
    var hs, ms, ss := NatToString(d.hours), NatToString(d.minutes), NatToString(d.seconds);
    if d.hours > 0 {
      assert 'm' !in hs + "h" by {
        assert forall i | 0 <= i < |hs| :: IsDigit(hs[i]);
      }
      CaptureAfter(hs + "h", d.minutes, 'm', ss + "s");
      assert s == hs + "h" + ms + ['m'] + (ss + "s");
    } else if d.minutes > 0 {
      CaptureAfter("", d.minutes, 'm', ss + "s");
      assert s == "" + ms + ['m'] + (ss + "s");
    } else {
      CaptureAbsent(s, 'm');
    }
  }

  /** The seconds are always written, and captured. */
  lemma SecondsCaptured(d: Span)
    ensures Capture(TwitchDurationText(d), 's') == Some(NatToString(d.seconds))
  {
    var s := TwitchDurationText(d);
    var hs, ms, ss := NatToString(d.hours), NatToString(d.minutes), NatToString(d.seconds);
    if d.hours > 0 {
      var pre := hs + "h" + ms + "m";
      assert 's' !in pre by {
        assert forall i | 0 <= i < |hs| :: IsDigit(hs[i]);
        assert forall i | 0 <= i < |ms| :: IsDigit(ms[i]);
      }
      CaptureAfter(pre, d.seconds, 's', "");
      assert s == pre + ss + ['s'] + "";
    } else if d.minutes > 0 {
      var pre := ms + "m";
      assert 's' !in pre by {
        assert forall i | 0 <= i < |ms| :: IsDigit(ms[i]);
      }
      CaptureAfter(pre, d.seconds, 's', "");
      assert s == pre + ss + ['s'] + "";
    } else {
      CaptureAfter("", d.seconds, 's', "");
      assert s == "" + ss + ['s'] + "";
    }
  }

  /** Worked case: all three units. */
  lemma ExampleAllUnits()
    ensures FormatTwitchDuration("1h2m3s") == "1:02:03"
  {
    ExampleCaptures();
    assert PadTwo("2") == "02" && PadTwo("3") == "03";
  }

  lemma ExampleCaptures()
    ensures Capture("1h2m3s", 'h') == Some("1")
    ensures Capture("1h2m3s", 'm') == Some("2")
    ensures Capture("1h2m3s", 's') == Some("3")
  {
    assert NatToString(1) == "1" && NatToString(2) == "2" && NatToString(3) == "3";
    CaptureAfter("", 1, 'h', "2m3s");
    assert "" + NatToString(1) + ['h'] + "2m3s" == "1h2m3s";
    CaptureAfter("1h", 2, 'm', "3s");
    assert "1h" + NatToString(2) + ['m'] + "3s" == "1h2m3s";
    CaptureAfter("1h2m", 3, 's', "");
    assert "1h2m" + NatToString(3) + ['s'] + "" == "1h2m3s";
  }

  /** Worked case: the empty string has every field at its default. */
  lemma ExampleEmpty()
    ensures FormatTwitchDuration("") == "0:00:00"
  {
    CaptureAbsent("", 'h');
    CaptureAbsent("", 'm');
    CaptureAbsent("", 's');
  }

  // ---------------------------------------------------------------------
  // Application access token cache
  // ---------------------------------------------------------------------

  /** The module-level `accessToken` and `tokenExpiry` (milliseconds since
      the epoch). */
  datatype TokenCache = TokenCache(token: string, expiry: int)

  /** The state at module load: no token, expiry 0. */
  const InitialCache := TokenCache("", 0)

  /** Fifty days in milliseconds, kept short of the sixty-day lifetime of
      Twitch application tokens. */
  const TokenLifetime: int := 50 * 24 * 60 * 60 * 1000

  /** The message of the error the token request raises on any failure. */
  const TokenError := "Nie udało się uzyskać tokenu dostępu Twitch"

  /** What the client-credentials request produced: a response with or
      without an `access_token`, or a failed request. */
  datatype TokenResponse = Responded(accessToken: Option<string>) | RequestFailed

  /** The outcome of one `getTwitchAccessToken` call: what it returns or
      throws, the cache afterwards, and whether it sent the request. */
  datatype TokenStep = TokenStep(result: Result<string>, cache: TokenCache, requested: bool)

  /** The cache answers without a request: a non-empty token that has not
      yet expired. */
  predicate CacheValid(c: TokenCache, now: int) {
    c.token != "" && c.expiry > now
  }

  /** `getTwitchAccessToken`. The clock is read twice in the source: `now`
      for the validity check and `storedAt` after the response, when the
      expiry is set; `response` is only consulted when a request is sent. */
  function GetAccessToken(c: TokenCache, now: int, response: TokenResponse, storedAt: int): (step: TokenStep)
    ensures step.requested <==> !CacheValid(c, now)
    ensures !step.requested ==> step.result == Ok(c.token) && step.cache == c
    ensures step.result.Ok? ==> step.result.value != "" && step.cache.token == step.result.value
    ensures step.requested && step.result.Ok? ==>
      response == Responded(Some(step.result.value)) && step.cache.expiry == storedAt + TokenLifetime
    ensures step.requested && (response.RequestFailed? || response.accessToken.GetOr("") == "") ==>
      step.result == Err(TokenError) && step.cache == c
    ensures step.requested && response.Responded? && response.accessToken.GetOr("") != "" ==>
      && step.result == Ok(response.accessToken.value)
      && step.cache == TokenCache(response.accessToken.value, storedAt + TokenLifetime)
  {
    if CacheValid(c, now) then TokenStep(Ok(c.token), c, false)
    else
      match response
      case RequestFailed => TokenStep(Err(TokenError), c, true)
      case Responded(t) =>
        if t.GetOr("") == "" then TokenStep(Err(TokenError), c, true)
        else TokenStep(Ok(t.value), TokenCache(t.value, storedAt + TokenLifetime), true)
  }

  /** A fresh module always requests a token, whatever the clock says. */
  lemma InitialCacheRequests(now: int, response: TokenResponse, storedAt: int)
    ensures GetAccessToken(InitialCache, now, response, storedAt).requested
  {
  }

  /** Once a token has been stored at `storedAt`, every call before
      `storedAt` plus fifty days returns it without a request and without
      changing the cache; from then on a new token is requested. */
  lemma StoredTokenReused(c: TokenCache, now: int, token: string, storedAt: int,
                          later: int, response: TokenResponse, storedAgain: int)
    requires token != ""
    requires GetAccessToken(c, now, Responded(Some(token)), storedAt).requested
    ensures var c' := GetAccessToken(c, now, Responded(Some(token)), storedAt).cache;
      var step := GetAccessToken(c', later, response, storedAgain);
      && (later < storedAt + TokenLifetime ==> !step.requested && step.result == Ok(token) && step.cache == c')
      && (later >= storedAt + TokenLifetime ==> step.requested)
  {
  }

  /** The cache only ever holds an empty token in its initial state: an
      empty token in the cache always comes with expiry 0. */
  ghost predicate CacheInvariant(c: TokenCache) {
    c.token == "" ==> c == InitialCache
  }

  lemma CacheInvariantPreserved(c: TokenCache, now: int, response: TokenResponse, storedAt: int)
    requires CacheInvariant(c)
    ensures CacheInvariant(GetAccessToken(c, now, response, storedAt).cache)
  {
  }

  /** A sequence of calls, each with its clock readings and (possible)
      response, run from a given cache. */
  datatype TokenCall = TokenCall(now: int, response: TokenResponse, storedAt: int)

  function RunCalls(c: TokenCache, calls: seq<TokenCall>): TokenCache
    decreases |calls|
  {
    if |calls| == 0 then c
    else
      var step := GetAccessToken(c, calls[0].now, calls[0].response, calls[0].storedAt);
      RunCalls(step.cache, calls[1..])
  }

  /** From the initial state, any sequence of calls keeps the invariant:
      the cache holds an empty token only in its initial state `('', 0)`. */
  lemma {:induction false} RunCallsKeepsInvariant(c: TokenCache, calls: seq<TokenCall>)
    requires CacheInvariant(c)
    ensures CacheInvariant(RunCalls(c, calls))
    decreases |calls|
  {
    if |calls| > 0 {
      CacheInvariantPreserved(c, calls[0].now, calls[0].response, calls[0].storedAt);
      var step := GetAccessToken(c, calls[0].now, calls[0].response, calls[0].storedAt);
      RunCallsKeepsInvariant(step.cache, calls[1..]);
    }
  }
}
