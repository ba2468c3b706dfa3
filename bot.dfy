/**
 * The bot's decision rules: resolving a product link to a club, the
 * frequency text, the interval clamp, the placeholder-name test, the
 * per-tracking poll transition, the sliding-window rate limiter, and the
 * handlers that drive the tracking table with them.
 *
 * Time is an integer number of seconds. What the network shows during a
 * call is a parameter: the fetch of a page, or, for a whole check cycle, a
 * map from URL to what fetching it gives.
 */
module Bot {
  import opened Wrappers
  import opened Text
  import opened Urls
  import opened Config
  import opened ConfigFacts
  import opened Batching
  import opened Database
  import opened Scrapers

  // ---------------------------------------------------------------------
  // Resolving a link to a club

  /** The host the lookup compares: the lower-cased URL's network location without `www.`. */
  function LinkDomain(url: string): Option<string> {
    match Netloc(Lower(url))
    case None => None
    case Some(h) => Some(StripWww(h))
  }

  /** The first element of `xs` from `i` on that satisfies `p`. */
  function FirstWhere<T>(xs: seq<T>, p: T -> bool, i: nat): Option<T>
    decreases |xs| - i
  {
    if i >= |xs| then None
    else if p(xs[i]) then Some(xs[i])
    else FirstWhere(xs, p, i + 1)
  }

  /** Whether a registry entry answers to `domain`. */
  function AnswersTo(domain: string): ((string, Club)) -> bool {
    (e: (string, Club)) => Accepts(e.1, domain)
  }

  /** `_validate_url`: the store id and club of the first registry entry answering to the link's host. */
  function ValidateUrl(url: string): Option<(string, Club)> {
    match LinkDomain(url)
    case None => None
    case Some(d) => FirstWhere(SupportedClubs, AnswersTo(d), 0)
  }

  /**
   * The scan returns the first element from `i` on that satisfies `p`, and
   * `None` exactly when no element from `i` on does.
   */
  lemma {:induction false} FirstWhereFirst<T>(xs: seq<T>, p: T -> bool, i: nat)
    ensures FirstWhere(xs, p, i).None? <==> forall j :: i <= j < |xs| ==> !p(xs[j])
    ensures FirstWhere(xs, p, i).Some? ==>
              exists j :: i <= j < |xs| && xs[j] == FirstWhere(xs, p, i).value && p(xs[j])
                          && forall m :: i <= m < j ==> !p(xs[m])
    decreases |xs| - i
  {
    if i < |xs| && !p(xs[i]) {
      FirstWhereFirst(xs, p, i + 1);
    }
  }

  /** No host is answered to by two registry entries. */
  lemma OneClubPerHost(domain: string, i: nat, j: nat)
    requires i < |SupportedClubs| && j < |SupportedClubs|
    requires Accepts(SupportedClubs[i].1, domain) && Accepts(SupportedClubs[j].1, domain)
    ensures i == j
  {
    AcceptsIffAccepted(SupportedClubs[i].1, domain);
    AcceptsIffAccepted(SupportedClubs[j].1, domain);
    ClubHosts(i);
    ClubHosts(j);
    RegistryHostsDisjoint();
  }

  /**
   * The lookup does not depend on registry order: the link resolves to an
   * entry exactly when that entry answers to its host, and to nothing
   * exactly when no entry does.
   */
  lemma ValidateUrlAnyOrder(url: string, i: nat)
    requires i < |SupportedClubs|
    ensures ValidateUrl(url) == Some(SupportedClubs[i]) <==>
              LinkDomain(url).Some? && Accepts(SupportedClubs[i].1, LinkDomain(url).value)
  {
    if LinkDomain(url).Some? {
      var d := LinkDomain(url).value;
      FirstWhereFirst(SupportedClubs, AnswersTo(d), 0);
      if Accepts(SupportedClubs[i].1, d) {
        assert AnswersTo(d)(SupportedClubs[i]);
        var j :| 0 <= j < |SupportedClubs| && SupportedClubs[j] == FirstWhere(SupportedClubs, AnswersTo(d), 0).value
                 && AnswersTo(d)(SupportedClubs[j]);
        OneClubPerHost(d, i, j);
      }
    }
  }

  /** A link whose host no entry answers to is rejected. */
  lemma ValidateUrlNone(url: string)
    ensures ValidateUrl(url).None? <==>
              LinkDomain(url).None? || forall j :: 0 <= j < |SupportedClubs| ==> !Accepts(SupportedClubs[j].1, LinkDomain(url).value)
  {
    if LinkDomain(url).Some? {
      FirstWhereFirst(SupportedClubs, AnswersTo(LinkDomain(url).value), 0);
    }
  }

  // ---------------------------------------------------------------------
  // Frequency text and interval clamp

  /** `_get_frequency_text`: minutes below an hour, whole hours below a day, whole days otherwise. */
  function FrequencyText(minutes: int): string {
    if minutes < 60 then "כל " + IntText(minutes) + " דקות"
    else if minutes < 1440 then
      var hours := minutes / 60;
      if hours > 1 then "כל " + IntText(hours) + " שעות" else "כל שעה"
    else
      var days := minutes / 1440;
      if days > 1 then "כל " + IntText(days) + " ימים" else "כל יום"
  }

  /** The expected texts of the frequency helper. */
  lemma FrequencyTextExamples()
    ensures FrequencyText(10) == "כל 10 דקות"
    ensures FrequencyText(60) == "כל שעה"
    ensures FrequencyText(120) == "כל 2 שעות"
    ensures FrequencyText(1440) == "כל יום"
    ensures FrequencyText(2880) == "כל 2 ימים"
  {
    assert NatText(10) == "10" by {
      assert NatText(1) == "1";
      assert NatText(0) == "0";
    }
    assert NatText(2) == "2";
  }

  /** Two intervals of the same unit range read alike only when they hold the same whole number of units. */
  lemma FrequencyTextCounts(m: int, n: int)
    requires 60 <= m && 60 <= n
    requires (m < 1440) == (n < 1440)
    requires FrequencyText(m) == FrequencyText(n)
    ensures m < 1440 ==> m / 60 == n / 60
    ensures m >= 1440 ==> m / 1440 == n / 1440
  {
    var u := if m < 1440 then 60 else 1440;
    var a, b := m / u, n / u;
    var word := if m < 1440 then " שעות" else " ימים";
    var single := if m < 1440 then "כל שעה" else "כל יום";
    assert FrequencyText(m) == (if a > 1 then "כל " + NatText(a) + word else single);
    assert FrequencyText(n) == (if b > 1 then "כל " + NatText(b) + word else single);
    if a > 1 && b > 1 {
      var s, t := NatText(a), NatText(b);
      assert ("כל " + s + word)[3..3 + |s|] == s;
      assert |s| == |t| by {
        assert |"כל " + s + word| == |"כל " + t + word|;
      }
      assert ("כל " + t + word)[3..3 + |t|] == t;
      NatTextInjective(a, b);
    }
  }

  /** `max(MIN_CHECK_INTERVAL, min(MAX_CHECK_INTERVAL, minutes))`. */
  function ClampInterval(cfg: BotConfig, minutes: int): int {
    if minutes > cfg.maxCheckInterval then
      (if cfg.maxCheckInterval < cfg.minCheckInterval then cfg.minCheckInterval else cfg.maxCheckInterval)
    else if minutes < cfg.minCheckInterval then cfg.minCheckInterval
    else minutes
  }

  /** With ordered bounds the clamp lands inside them, keeps a value already inside, and is idempotent. */
  lemma ClampBounds(cfg: BotConfig, minutes: int)
    requires cfg.minCheckInterval <= cfg.maxCheckInterval
    ensures cfg.minCheckInterval <= ClampInterval(cfg, minutes) <= cfg.maxCheckInterval
    ensures cfg.minCheckInterval <= minutes <= cfg.maxCheckInterval ==> ClampInterval(cfg, minutes) == minutes
    ensures ClampInterval(cfg, ClampInterval(cfg, minutes)) == ClampInterval(cfg, minutes)
  {
  }

  /** The shipped bounds are ordered, so the clamp range is never empty. */
  lemma DefaultBoundsOrdered(token: string, webhookUrl: string, environment: string, forcePolling: bool)
    ensures var cfg := DefaultConfig(token, webhookUrl, environment, forcePolling);
            cfg.minCheckInterval <= cfg.defaultCheckInterval <= cfg.maxCheckInterval
            && ClampInterval(cfg, cfg.defaultCheckInterval) == cfg.defaultCheckInterval
  {
  }

  /**
   * The interval a new tracking gets: the user's stored default (or the
   * global one when the user record has none), clamped, when the user has a
   * record; the global default otherwise.
   */
  function InitialInterval(cfg: BotConfig, users: map<int, UserRecord>, userId: int): int {
    if userId in users then ClampInterval(cfg, users[userId].defaultCheckInterval.GetOr(cfg.defaultCheckInterval))
    else cfg.defaultCheckInterval
  }

  /** With ordered bounds and an in-range global default, a new tracking's interval is always in range. */
  lemma InitialIntervalInRange(cfg: BotConfig, users: map<int, UserRecord>, userId: int)
    requires cfg.minCheckInterval <= cfg.defaultCheckInterval <= cfg.maxCheckInterval
    ensures cfg.minCheckInterval <= InitialInterval(cfg, users, userId) <= cfg.maxCheckInterval
  {
    if userId in users {
      ClampBounds(cfg, users[userId].defaultCheckInterval.GetOr(cfg.defaultCheckInterval));
    }
  }

  // ---------------------------------------------------------------------
  // Product lookups the add-tracking path refuses, and placeholder names

  const MashkarName: string := "משקארד"

  /** The lookup failed: no record, an error message, or one of the error names. */
  predicate LookupFailed(info: Option<ProductInfo>) {
    info.None? || (info.value.errorMessage.Some? && info.value.errorMessage.value != "")
    || info.value.name in {LoadErrorName, TimeoutText, ErrorText}
  }

  /** Every error record the scraper builds is refused by the add-tracking path. */
  lemma ErrorRecordsRefused(message: string, status: int)
    ensures LookupFailed(Some(LoadErrorInfo(message)))
    ensures LookupFailed(Some(TimeoutInfo(message)))
    ensures LookupFailed(Some(HttpErrorInfo(status)))
  {
    assert HttpErrorInfo(status).errorMessage.value != "" by {
      assert |HttpErrorInfo(status).errorMessage.value| >= 5;
    }
  }

  /** The quote characters stripped from a name after the whitespace. */
  const Quotes: set<char> := {'"', '\''}

  /** The name as the placeholder test compares it. */
  function NormalizedName(name: string): string {
    Strip(StripSpace(name), Quotes)
  }

  /** The name is a placeholder: empty, shorter than three characters, the club's name, "משקארד" or "לא זמין". */
  predicate IsInvalidProductName(name: string, storeName: string) {
    var n := NormalizedName(name);
    n == "" || |n| < 3 || n == StripSpace(storeName) || n == MashkarName || n == NotAvailable
  }

  /**
   * Padding does not change the verdict: surrounding whitespace is ignored,
   * any name at most two characters long once stripped is a placeholder,
   * and so is the scraper's own placeholder.
   */
  lemma InvalidNameFacts(name: string, storeName: string)
    ensures IsInvalidProductName(StripSpace(name), storeName) == IsInvalidProductName(name, storeName)
    ensures |StripSpace(name)| < 3 ==> IsInvalidProductName(name, storeName)
    ensures IsInvalidProductName(NotAvailable, storeName)
  {
    StripIdempotent(name, Whitespace);
    StripSlice(StripSpace(name), Quotes);
    StripUnchanged(NotAvailable, Whitespace);
    StripUnchanged(NotAvailable, Quotes);
  }

  // ---------------------------------------------------------------------
  // The poll transition

  /** The row fields `_check_single_stock` writes. */
  datatype PollUpdate = PollUpdate(status: TrackingStatus, errorCount: int, notificationSent: bool)

  /** The failed checks after which a tracking is put in the error state. */
  const ErrorThreshold: int := 5

  /**
   * The transition of `_check_single_stock` for one row and the quick
   * check's verdict. A failed check counts up and puts the row in the error
   * state at the threshold; a verdict resets the count and records it. The
   * notification flag is set exactly when a notification is sent.
   */
  function Poll(t: ProductTracking, observed: Option<bool>): PollUpdate {
    match observed
    case None =>
      var count := t.errorCount + 1;
      PollUpdate(if count >= ErrorThreshold then Error else t.status, count, false)
    case Some(inStock) =>
      var notify := t.status == OutOfStock && inStock && !t.notificationSent;
      PollUpdate(if inStock then InStock else OutOfStock, 0, notify)
  }

  /** The stored row after a poll. */
  function Polled(t: ProductTracking, observed: Option<bool>, now: int): ProductTracking {
    var u := Poll(t, observed);
    StatusUpdated(t, u.status, u.errorCount, u.notificationSent, now)
  }

  /**
   * A failed check adds one to the count and reaches the error state exactly
   * at the threshold, keeping the old state below it; a successful one
   * clears the count and stores the verdict.
   */
  lemma PollCounts(t: ProductTracking, observed: Option<bool>)
    ensures observed.None? ==> Poll(t, observed).errorCount == t.errorCount + 1
    ensures observed.None? ==>
              (Poll(t, observed).status == Error <==> t.errorCount + 1 >= ErrorThreshold || t.status == Error)
    ensures observed.None? && t.errorCount + 1 < ErrorThreshold ==> Poll(t, observed).status == t.status
    ensures observed.Some? ==> Poll(t, observed).errorCount == 0
    ensures observed.Some? ==> (Poll(t, observed).status == InStock <==> observed.value)
    ensures observed.Some? ==> Poll(t, observed).status in {InStock, OutOfStock}
  {
  }

  /** A notification goes out exactly on a return to stock not yet notified. */
  lemma NotifyIff(t: ProductTracking, observed: Option<bool>)
    ensures Poll(t, observed).notificationSent <==>
              t.status == OutOfStock && observed == Some(true) && !t.notificationSent
  {
  }

  /** Right after a notification, no further check notifies again. */
  lemma NoRepeatNotification(t: ProductTracking, first: Option<bool>, next: Option<bool>, now: int)
    requires Poll(t, first).notificationSent
    ensures !Poll(Polled(t, first, now), next).notificationSent
  {
  }

  /** An ACTIVE tracking is never notified, whatever its check shows. */
  lemma ActiveNeverNotifies(t: ProductTracking)
    requires t.status == Active
    ensures forall observed :: !Poll(t, observed).notificationSent
  {
  }

  /** The row after `n` failed checks in a row. */
  function FailedPolls(t: ProductTracking, n: nat, now: int): ProductTracking
    decreases n
  {
    if n == 0 then t else FailedPolls(Polled(t, None, now), n - 1, now)
  }

  /**
   * After `n > 0` failed checks the count has grown by `n`, and the row is in
   * the error state exactly when the count reached the threshold or it was
   * there already.
   */
  lemma {:induction false} FailedPollsCount(t: ProductTracking, n: nat, now: int)
    ensures FailedPolls(t, n, now).errorCount == t.errorCount + n
    ensures n > 0 ==> FailedPolls(t, n, now).status
                      == if t.errorCount + n >= ErrorThreshold then Error else t.status
    decreases n
  {
    if n > 0 {
      FailedPollsCount(Polled(t, None, now), n - 1, now);
    }
  }

  /** A tracking that keeps failing is in the error state after five checks. */
  lemma FiveFailuresMeanError(t: ProductTracking, now: int)
    requires t.errorCount >= 0
    ensures FailedPolls(t, 5, now).status == Error
  {
    FailedPollsCount(t, 5, now);
  }

  /**
   * A row the selection hands over is ACTIVE, so polling it never notifies;
   * after a successful poll it is no longer due at any cutoff, so only
   * failing rows are checked again.
   */
  lemma DueRowPoll(t: ProductTracking, observed: Option<bool>, now: int, cutoff: int, later: int)
    requires IsDue(t, cutoff)
    ensures !Poll(t, observed).notificationSent
    ensures observed.Some? ==> !IsDue(Polled(t, observed, now), later)
    ensures observed.None? && t.errorCount + 1 < ErrorThreshold ==> Polled(t, observed, now).status == Active
  {
  }

  // ---------------------------------------------------------------------
  // The rate-limit window

  /** The timestamps strictly after `cutoff`, in order. */
  function Recent(ts: seq<int>, cutoff: int): seq<int> {
    if |ts| == 0 then []
    else if ts[0] > cutoff then [ts[0]] + Recent(ts[1..], cutoff)
    else Recent(ts[1..], cutoff)
  }

  /** The kept timestamps are exactly those after the cutoff, and there are no more of them than before. */
  lemma {:induction false} RecentFacts(ts: seq<int>, cutoff: int)
    ensures |Recent(ts, cutoff)| <= |ts|
    ensures forall x :: x in Recent(ts, cutoff) <==> x in ts && x > cutoff
    decreases |ts|
  {
    if |ts| > 0 {
      RecentFacts(ts[1..], cutoff);
      assert forall x :: x in ts <==> x == ts[0] || x in ts[1..];
    }
  }

  /** The decision and the stored list of `_check_rate_limit`. */
  function RateStep(ts: seq<int>, now: int, window: int, limit: int): (bool, seq<int>) {
    var kept := Recent(ts, now - window);
    if |kept| >= limit then (false, kept) else (true, kept + [now])
  }

  /**
   * The limiter accepts exactly when fewer than `limit` requests fall in the
   * window; an accepted request is recorded and a refused one is not; and a
   * list within the limit stays within it.
   */
  lemma RateStepFacts(ts: seq<int>, now: int, window: int, limit: int)
    ensures RateStep(ts, now, window, limit).0 <==> |Recent(ts, now - window)| < limit
    ensures RateStep(ts, now, window, limit).0 ==> now in RateStep(ts, now, window, limit).1
    ensures !RateStep(ts, now, window, limit).0 ==> RateStep(ts, now, window, limit).1 == Recent(ts, now - window)
    ensures forall x :: x in RateStep(ts, now, window, limit).1 && x != now ==> x in ts && x > now - window
    ensures |ts| <= limit ==> |RateStep(ts, now, window, limit).1| <= limit
  {
    RecentFacts(ts, now - window);
  }

  // ---------------------------------------------------------------------
  // The check cycle over the table

  /** What one stored row becomes when `update_tracking_status` is called for tracking `t` with `u`. */
  function AfterPoll(rows: map<nat, ProductTracking>, t: ProductTracking, u: PollUpdate, now: int): map<nat, ProductTracking> {
    if t.id.Some? && t.id.value in rows
    then rows[t.id.value := StatusUpdated(rows[t.id.value], u.status, u.errorCount, u.notificationSent, now)]
    else rows
  }

  /** The table after `_check_single_stock` for `t` with what fetching its URL showed: untouched for an unknown store. */
  function CheckedRows(rows: map<nat, ProductTracking>, t: ProductTracking,
                       fetch: (Response<seq<Option<string>>>, PageLoad), now: int): (r: map<nat, ProductTracking>)
    ensures r.Keys == rows.Keys
  {
    if LookupClub(t.storeId).None? then rows
    else AfterPoll(rows, t, Poll(t, StockStatus(t.storeId, fetch.0, fetch.1)), now)
  }

  /** The table after checking the first `n` trackings of `ts`, in order. */
  function CheckedFirst(rows: map<nat, ProductTracking>, ts: seq<ProductTracking>, n: nat,
                        web: string -> (Response<seq<Option<string>>>, PageLoad), now: int): (r: map<nat, ProductTracking>)
    requires n <= |ts|
    ensures r.Keys == rows.Keys
    decreases n
  {
    if n == 0 then rows
    else CheckedRows(CheckedFirst(rows, ts, n - 1, web, now), ts[n - 1], web(ts[n - 1].productUrl), now)
  }

  /** Checking the first `n` trackings leaves a row none of them names exactly as it was. */
  lemma {:induction false} CheckedFirstElsewhere(rows: map<nat, ProductTracking>, ts: seq<ProductTracking>, n: nat,
                                                 web: string -> (Response<seq<Option<string>>>, PageLoad), now: int, k: nat)
    requires n <= |ts|
    ensures k in rows && (forall j :: 0 <= j < n ==> ts[j].id != Some(k)) ==> CheckedFirst(rows, ts, n, web, now)[k] == rows[k]
    decreases n
  {
    if n > 0 {
      CheckedFirstElsewhere(rows, ts, n - 1, web, now, k);
    }
  }

  /**
   * With distinct ids, the row of the `j`-th tracking ends up updated once,
   * from its stored value, with the poll of that tracking (or untouched when
   * its store is unknown).
   */
  lemma {:induction false} CheckedFirstAt(rows: map<nat, ProductTracking>, ts: seq<ProductTracking>, n: nat,
                                          web: string -> (Response<seq<Option<string>>>, PageLoad), now: int, j: nat)
    requires n <= |ts| && DistinctIds(ts) && j < n && ts[j].id.Some? && ts[j].id.value in rows
    ensures CheckedFirst(rows, ts, n, web, now)[ts[j].id.value] == CheckedRows(rows, ts[j], web(ts[j].productUrl), now)[ts[j].id.value]
    decreases n
  {
    var k := ts[j].id.value;
    if j < n - 1 {
      CheckedFirstAt(rows, ts, n - 1, web, now, j);
      assert ts[n - 1].id != Some(k);
    } else {
      CheckedFirstElsewhere(rows, ts, n - 1, web, now, k);
    }
  }

  /** A single check keeps every row's id, user and URL, so it keeps the table well-formed. */
  lemma CheckedRowsWellFormed(rows: map<nat, ProductTracking>, t: ProductTracking,
                              fetch: (Response<seq<Option<string>>>, PageLoad), now: int, nextId: nat)
    requires WellFormed(rows, nextId)
    ensures WellFormed(CheckedRows(rows, t, fetch, now), nextId)
  {
    if LookupClub(t.storeId).Some? && t.id.Some? {
      var u := Poll(t, StockStatus(t.storeId, fetch.0, fetch.1));
      StatusUpdatedWellFormed(rows, nextId, t.id.value, u.status, u.errorCount, u.notificationSent, now);
    }
  }

  /** So does a whole check cycle. */
  lemma {:induction false} CheckedFirstWellFormed(rows: map<nat, ProductTracking>, ts: seq<ProductTracking>, n: nat,
                                                  web: string -> (Response<seq<Option<string>>>, PageLoad), now: int, nextId: nat)
    requires n <= |ts| && WellFormed(rows, nextId)
    ensures WellFormed(CheckedFirst(rows, ts, n, web, now), nextId)
    decreases n
  {
    if n > 0 {
      CheckedFirstWellFormed(rows, ts, n - 1, web, now, nextId);
      CheckedRowsWellFormed(CheckedFirst(rows, ts, n - 1, web, now), ts[n - 1], web(ts[n - 1].productUrl), now, nextId);
    }
  }

  /**
   * In a cycle, the row of a checked tracking of a known store ends up
   * polled with what its URL showed: a reading stores the verdict, clears
   * the count and takes the row out of the due set at any cutoff; a failed
   * check adds one to the count and stamps the check time.
   */
  lemma CycleOutcome(rows: map<nat, ProductTracking>, ts: seq<ProductTracking>,
                     web: string -> (Response<seq<Option<string>>>, PageLoad), now: int, j: nat, later: int)
    requires DistinctIds(ts) && j < |ts| && ts[j].id.Some? && ts[j].id.value in rows
    requires LookupClub(ts[j].storeId).Some?
    ensures var v := StockStatus(ts[j].storeId, web(ts[j].productUrl).0, web(ts[j].productUrl).1);
            var r := CheckedFirst(rows, ts, |ts|, web, now)[ts[j].id.value];
            (v.Some? ==> !IsDue(r, later) && r.errorCount == 0 && (r.status == InStock <==> v.value))
            && (v.None? ==> r.errorCount == ts[j].errorCount + 1 && r.lastChecked == Some(now))
  {
    CheckedFirstAt(rows, ts, |ts|, web, now, j);
  }

  /** What the bot did besides writing rows: a back-in-stock notification, or a pause between batches. */
  datatype Event = Notified(tracking: ProductTracking) | Paused

  /** `n` pauses. */
  function Pauses(n: nat): (r: seq<Event>)
    ensures |r| == n && forall j :: 0 <= j < n ==> r[j] == Event.Paused
  {
    seq(n, j => Event.Paused)
  }

  lemma PausesStep(n: nat)
    ensures Pauses(n) + [Event.Paused] == Pauses(n + 1)
  {
  }

  /** What a link sent by the user led to. */
  datatype UrlOutcome =
    | InvalidUrl
    | LookupFailure
    | AlreadyTracking(id: nat)
    | Tracked(id: nat, renamePrompt: bool)

  /** The tracking `handle_url_input` creates for a new link. */
  function NewTracking(userId: int, url: string, info: ProductInfo, storeId: string, club: Club, interval: int): ProductTracking {
    ProductTracking(userId, url, info.name, club.name, storeId, interval, Active,
                    None, None, None, None, 0, false, None, None, None, None)
  }

  /** Whether a row is the user's tracking of exactly this link. */
  predicate TracksLink(t: ProductTracking, userId: int, url: string) {
    t.userId == userId && t.productUrl == url
  }

  /** The callback part is a non-empty run of ASCII digits (`str.isdigit`). */
  predicate IsDigits(s: string) {
    |s| > 0 && forall i :: 0 <= i < |s| ==> IsAsciiDigit(s[i])
  }

  /**
   * What storing a loaded link does to the table: a failed tracking of the
   * same link by the same user is revived under its id with the new name; a
   * tracking of it in any other state is reported and nothing changes; with
   * none, `added` is stored under the next id and the user's counters go up.
   */
  ghost predicate Linked(outcome: UrlOutcome, rows0: map<nat, ProductTracking>, users0: map<int, UserRecord>, nextId0: nat,
                         rows: map<nat, ProductTracking>, users: map<int, UserRecord>,
                         userId: int, url: string, name: string, added: ProductTracking, rename: bool, now: int)
  {
    (forall k :: k in rows0 && TracksLink(rows0[k], userId, url) ==>
       if rows0[k].status == Error then
         outcome == Tracked(k, rename) && users == users0
         && rows == rows0[k := rows0[k].(status := Active, errorCount := 0, updatedAt := Some(now),
                                         productName := name, notificationSent := false)]
       else outcome == AlreadyTracking(k) && rows == rows0 && users == users0)
    && ((forall k :: k in rows0 ==> !TracksLink(rows0[k], userId, url)) ==>
       outcome == Tracked(nextId0, rename)
       && rows == rows0[nextId0 := NewRow(added, now, nextId0)]
       && users == CountNewTracking(users0, userId, now))
  }

  class StockTrackerBot {
    /** The settings the bot was started with. */
    const cfg: BotConfig
    /** The tracking and user collections. */
    const db: TrackingTable
    /** Per user, the times of the recent requests the limiter counted. */
    var rateLimitCache: map<int, seq<int>>
    /** The notifications sent and the pauses taken, in order. */
    var events: seq<Event>

    ghost predicate Valid()
      reads this, db
    {
      db.Valid()
    }

    /** Every user's recorded requests are within the limit. */
    ghost predicate RateLimited()
      reads this
    {
      forall u :: u in rateLimitCache ==> |rateLimitCache[u]| <= cfg.rateLimitPerUser
    }

    constructor(cfg: BotConfig, db: TrackingTable)
      requires db.Valid()
      ensures Valid() && RateLimited()
      ensures this.cfg == cfg && this.db == db && rateLimitCache == map[] && events == []
    {
      this.cfg := cfg;
      this.db := db;
      rateLimitCache := map[];
      events := [];
    }

    /**
     * `_check_rate_limit`: forgets the user's requests outside the window,
     * refuses when as many as the limit remain, and otherwise records this
     * one and accepts.
     */
    method CheckRateLimit(userId: int, now: int) returns (allowed: bool)
      modifies this
      ensures var step := RateStep(if userId in old(rateLimitCache) then old(rateLimitCache)[userId] else [],
                                   now, cfg.rateLimitWindow, cfg.rateLimitPerUser);
              allowed == step.0 && rateLimitCache == old(rateLimitCache)[userId := step.1]
      ensures old(RateLimited()) && cfg.rateLimitPerUser >= 0 ==> RateLimited()
      ensures events == old(events)
    {
      var ts := if userId in rateLimitCache then rateLimitCache[userId] else [];
      var kept := Recent(ts, now - cfg.rateLimitWindow);
      RateStepFacts(ts, now, cfg.rateLimitWindow, cfg.rateLimitPerUser);
      if |kept| >= cfg.rateLimitPerUser {
        rateLimitCache := rateLimitCache[userId := kept];
        return false;
      }
      rateLimitCache := rateLimitCache[userId := kept + [now]];
      return true;
    }

    /**
     * `_check_single_stock`: nothing for an unknown store; otherwise the
     * poll of `t` written to its stored row, and a notification when the
     * poll sets the flag.
     */
    method CheckSingleStock(t: ProductTracking, fetch: (Response<seq<Option<string>>>, PageLoad), now: int)
      modifies this, db
      ensures db.rows == CheckedRows(old(db.rows), t, fetch, now)
      ensures events == old(events) + (if LookupClub(t.storeId).Some? && Poll(t, StockStatus(t.storeId, fetch.0, fetch.1)).notificationSent
                                       then [Notified(t)] else [])
      ensures t.status == Active ==> events == old(events)
      ensures db.users == old(db.users) && db.nextId == old(db.nextId) && rateLimitCache == old(rateLimitCache)
    {
      if LookupClub(t.storeId).None? {
        return;
      }
      var current := CheckStockStatus(t.storeId, fetch.0, fetch.1);
      var status, count, notify;
      if current.None? {
        count := t.errorCount + 1;
        status := if count >= ErrorThreshold then Error else t.status;
        notify := false;
      } else {
        status := if current.value then InStock else OutOfStock;
        count := 0;
        notify := t.status == OutOfStock && status == InStock && !t.notificationSent;
      }
      assert PollUpdate(status, count, notify) == Poll(t, current);
      if t.id.Some? {
        db.UpdateTrackingStatus(t.id.value, status, count, notify, now);
      }
      if notify {
        events := events + [Notified(t)];
      }
    }

    /** Checks `checked[i..next]` in order; none of them is a return to stock, since all are ACTIVE. */
    method CheckBatchOf(checked: seq<ProductTracking>, i: nat, next: nat,
                        web: string -> (Response<seq<Option<string>>>, PageLoad), now: int, ghost rows0: map<nat, ProductTracking>)
      requires i <= next <= |checked|
      requires forall j :: 0 <= j < |checked| ==> checked[j].status == Active
      requires db.rows == CheckedFirst(rows0, checked, i, web, now)
      modifies this, db
      ensures db.rows == CheckedFirst(rows0, checked, next, web, now)
      ensures events == old(events)
      ensures db.users == old(db.users) && db.nextId == old(db.nextId) && rateLimitCache == old(rateLimitCache)
    {
      var k := i;
      while k < next
        invariant i <= k <= next
        invariant db.rows == CheckedFirst(rows0, checked, k, web, now)
        invariant events == old(events)
        invariant db.users == old(db.users) && db.nextId == old(db.nextId) && rateLimitCache == old(rateLimitCache)
      {
        CheckOne(checked, k, web, now, rows0);
        k := k + 1;
      }
    }

    /** Checks `checked[k]`, an ACTIVE tracking, which adds its update and no event. */
    method CheckOne(checked: seq<ProductTracking>, k: nat,
                    web: string -> (Response<seq<Option<string>>>, PageLoad), now: int, ghost rows0: map<nat, ProductTracking>)
      requires k < |checked| && checked[k].status == Active
      requires db.rows == CheckedFirst(rows0, checked, k, web, now)
      modifies this, db
      ensures db.rows == CheckedFirst(rows0, checked, k + 1, web, now)
      ensures events == old(events)
      ensures db.users == old(db.users) && db.nextId == old(db.nextId) && rateLimitCache == old(rateLimitCache)
    {
      var t := checked[k];
      CheckSingleStock(t, web(t.productUrl), now);
    }

    /**
     * `_check_all_stocks`: selects the due trackings, checks them batch by
     * batch with a pause after each batch, and sends no notification, since
     * every selected tracking is ACTIVE. With nothing selected, or a batch
     * step that is zero (`range` raises) or negative (no batches), nothing is
     * checked.
     */
    method CheckAllStocks(now: int, web: string -> (Response<seq<Option<string>>>, PageLoad))
      returns (checked: seq<ProductTracking>)
      requires Valid()
      modifies this, db
      ensures Valid()
      ensures var due := old(db.DueIds(now - cfg.defaultCheckInterval * 60));
              |checked| == (if |due| < SelectionLimit then |due| else SelectionLimit)
              && (forall i :: 0 <= i < |checked| ==>
                    checked[i].id.Some? && checked[i].id.value in due
                    && checked[i] == DueSnapshot(old(db.rows)[checked[i].id.value]))
              && DistinctIds(checked)
      ensures |checked| == 0 || cfg.maxConcurrentRequests <= 0 ==>
                db.rows == old(db.rows) && events == old(events)
      ensures |checked| > 0 && cfg.maxConcurrentRequests > 0 ==>
                db.rows == CheckedFirst(old(db.rows), checked, |checked|, web, now)
                && events == old(events) + Pauses(|Batches(checked, cfg.maxConcurrentRequests as nat)|)
      ensures db.users == old(db.users) && db.nextId == old(db.nextId) && rateLimitCache == old(rateLimitCache)
    {
      checked := db.GetTrackingsToCheck(now, cfg.defaultCheckInterval);
      var size := cfg.maxConcurrentRequests;
      if |checked| == 0 || size <= 0 {
        return;
      }
      ghost var cutoff := now - cfg.defaultCheckInterval * 60;
      forall i | 0 <= i < |checked| ensures checked[i].status == Active {
        assert IsDue(db.rows[checked[i].id.value], cutoff);
      }
      ghost var rows0 := db.rows;
      RunBatches(checked, size as nat, web, now);
      CheckedFirstWellFormed(rows0, checked, |checked|, web, now, db.nextId);
    }

    /** Checks `checked` batch by batch, pausing after each batch; all are ACTIVE, so none notifies. */
    method RunBatches(checked: seq<ProductTracking>, size: nat, web: string -> (Response<seq<Option<string>>>, PageLoad), now: int)
      requires size > 0
      requires forall j :: 0 <= j < |checked| ==> checked[j].status == Active
      modifies this, db
      ensures db.rows == CheckedFirst(old(db.rows), checked, |checked|, web, now)
      ensures events == old(events) + Pauses(|Batches(checked, size)|)
      ensures db.users == old(db.users) && db.nextId == old(db.nextId) && rateLimitCache == old(rateLimitCache)
    {
      ghost var rows0 := db.rows;
      var i := 0;
      ghost var done := 0;
      assert checked[0..] == checked;
      while i < |checked|
        invariant 0 <= i <= |checked|
        invariant db.rows == CheckedFirst(rows0, checked, i, web, now)
        invariant done + |Batches(checked[i..], size)| == |Batches(checked, size)|
        invariant events == old(events) + Pauses(done)
        invariant db.users == old(db.users) && db.nextId == old(db.nextId) && rateLimitCache == old(rateLimitCache)
        decreases |checked| - i
      {
        var next := if i + size <= |checked| then i + size else |checked|;
        BatchesFrom(checked, size, i);
        CheckBatchOf(checked, i, next, web, now, rows0);
        events := events + [Event.Paused];
        PausesStep(done);
        done := done + 1;
        i := next;
      }
      assert checked[|checked|..] == [];
    }

    /** The pause button: `update_tracking_status(id, PAUSED)`, which also clears the count and the flag. */
    method PauseTracking(id: nat, now: int)
      requires Valid()
      modifies db
      ensures Valid()
      ensures db.rows == if id in old(db.rows) then old(db.rows)[id := StatusUpdated(old(db.rows)[id], TrackingStatus.Paused, 0, false, now)] else old(db.rows)
      ensures db.users == old(db.users) && db.nextId == old(db.nextId)
    {
      StatusUpdatedWellFormed(db.rows, db.nextId, id, TrackingStatus.Paused, 0, false, now);
      db.UpdateTrackingStatus(id, TrackingStatus.Paused, 0, false, now);
    }

    /** The resume button: `update_tracking_status(id, ACTIVE)`, which also clears the count and the flag. */
    method ResumeTracking(id: nat, now: int)
      requires Valid()
      modifies db
      ensures Valid()
      ensures db.rows == if id in old(db.rows) then old(db.rows)[id := StatusUpdated(old(db.rows)[id], Active, 0, false, now)] else old(db.rows)
      ensures db.users == old(db.users) && db.nextId == old(db.nextId)
    {
      StatusUpdatedWellFormed(db.rows, db.nextId, id, Active, 0, false, now);
      db.UpdateTrackingStatus(id, Active, 0, false, now);
    }

    /**
     * The general frequency setting, `settings_frequency_<minutes>`: with
     * exactly three parts and a digit run last, the clamped value becomes the
     * user's default; anything else changes nothing.
     */
    method SetFrequency(userId: int, parts: seq<string>, now: int) returns (applied: Option<int>)
      requires Valid()
      modifies db
      ensures Valid()
      ensures !(|parts| == 3 && IsDigits(parts[2])) ==> applied.None? && db.users == old(db.users)
      ensures |parts| == 3 && IsDigits(parts[2]) ==>
                applied == Some(ClampInterval(cfg, DigitsValue(parts[2])))
                && db.users == old(db.users)[userId := if userId in old(db.users)
                                              then old(db.users)[userId].(defaultCheckInterval := applied, updatedAt := Some(now))
                                              else UserRecord(0, 0, applied, Some(now))]
      ensures db.rows == old(db.rows) && db.nextId == old(db.nextId)
    {
      if |parts| == 3 && IsDigits(parts[2]) {
        var minutes := ClampInterval(cfg, DigitsValue(parts[2]));
        db.SetDefaultInterval(userId, minutes, now);
        return Some(minutes);
      }
      return None;
    }

    /**
     * The storing half of `handle_url_input` for a link and a product that
     * loaded: revives the user's failed tracking of the link, reports one in
     * any other state, or stores `added` as a new one.
     */
    method TrackLink(userId: int, url: string, name: string, added: ProductTracking, rename: bool, now: int)
      returns (outcome: UrlOutcome)
      requires Valid()
      requires TracksLink(added, userId, url)
      modifies db
      ensures Valid()
      ensures Linked(outcome, old(db.rows), old(db.users), old(db.nextId), db.rows, db.users, userId, url, name, added, rename, now)
    {
      if k :| k in db.rows && TracksLink(db.rows[k], userId, url) {
        if db.rows[k].status == Error {
          db.ReviveTracking(k, name, now);
          return Tracked(k, rename);
        }
        return AlreadyTracking(k);
      }
      var id := db.AddTracking(added, now);
      return Tracked(id, rename);
    }

    /**
     * `handle_url_input`: rejects a link no club answers to and a product
     * the scraper cannot load, and otherwise stores the link as `TrackLink`
     * says, a new tracking being ACTIVE with the user's clamped interval. A
     * placeholder name asks the user for a name.
     */
    method HandleUrlInput(userId: int, text: string, response: Response<ParsedPage>, load: PageLoad,
                          clock: string, now: int)
      returns (outcome: UrlOutcome)
      requires Valid()
      modifies db
      ensures Valid()
      ensures var url := StripSpace(text);
              ValidateUrl(url).None? ==> outcome == InvalidUrl && db.rows == old(db.rows) && db.users == old(db.users)
      ensures var url := StripSpace(text);
              ValidateUrl(url).Some? && LookupFailed(ProductInfoOf(ValidateUrl(url).value.0, response, load, clock)) ==>
                outcome == LookupFailure && db.rows == old(db.rows) && db.users == old(db.users)
      ensures var url := StripSpace(text);
              ValidateUrl(url).Some? && !LookupFailed(ProductInfoOf(ValidateUrl(url).value.0, response, load, clock)) ==>
                var entry := ValidateUrl(url).value;
                var info := ProductInfoOf(entry.0, response, load, clock).value;
                Linked(outcome, old(db.rows), old(db.users), old(db.nextId), db.rows, db.users, userId, url, info.name,
                       NewTracking(userId, url, info, entry.0, entry.1, InitialInterval(cfg, old(db.users), userId)),
                       IsInvalidProductName(info.name, entry.1.name), now)
    {
      var url := StripSpace(text);
      var entry := ValidateUrl(url);
      if entry.None? {
        return InvalidUrl;
      }
      var storeId := entry.value.0;
      var club := entry.value.1;
      var info, _ := GetProductInfo(storeId, response, load, clock);
      if LookupFailed(info) {
        return LookupFailure;
      }
      var rename := IsInvalidProductName(info.value.name, club.name);
      var interval := InitialInterval(cfg, db.users, userId);
      var added := NewTracking(userId, url, info.value, storeId, club, interval);
      outcome := TrackLink(userId, url, info.value.name, added, rename, now);
    }
  }
}
