# Stock-alert bot: the decision layer in Dafny

The bot lets Telegram users track products sold through Israeli employee and
membership clubs and tells them when a product comes back in stock. This
project models the part of it that decides things.

- **Configuration** (`config.dfy`): the start-up validation of `BotConfig`
  and the `SUPPORTED_CLUBS` registry. This includes the proof that no host
  answers to two clubs, so the first-match lookup does not depend on the
  order of the registry.
- **Tracking table** (`database.dfy`): an in-memory map from document id to
  `ProductTracking`, owned by the class `TrackingTable`. It has the upsert
  `add_tracking`, the due-row selection, `update_tracking_status`,
  `remove_tracking`, `get_user_trackings` and the round trip through the
  stored document.
- **Scrapers** (`scrapers.dfy`): how a product record is built from a
  parsed or rendered page, the two quick stock checks, the transport
  fallback of `get_product_info`, the Mashkar product-id regex and the
  batched multi-URL check. The loops of the original are methods proved
  against the functions that specify them.
- **Bot** (`bot.dfy`):
  - the pure rules: link validation, frequency text, interval clamp,
    placeholder names, the per-tracking poll transition and the
    sliding-window rate limiter;
  - the class `StockTrackerBot`, which drives the table with those rules:
    the check cycle, link handling, pause/resume, the frequency setting and
    the rate-limit cache.
- **Helpers**: `text.dfy` has Python's `strip`, `replace`, `lower`, `str(n)`
  and `in` on strings. `urls.dfy` has the part of `urlparse` the lookup
  uses. `batching.dfy` has `range(0, n, size)` slicing. `wrappers.dfy` has
  `Option` and `Result`.

Time is an integer number of seconds. The network, the browser and the clock
never appear; what they would return becomes a parameter:

- a `Response` (status and body, timeout, or error) or a `PageLoad`;
- for a whole check cycle, a function from URL to what fetching that URL
  gives;
- the event loop's clock text, and `now`.

Notifications and the pauses between batches are recorded as `Event`s in
`StockTrackerBot.events`.

Some behaviour follows the code as written, in these places:

- **A check cycle never notifies.** The selection returns only ACTIVE rows,
  and a notification needs the stored state to be OUT_OF_STOCK. So a row
  that was read successfully leaves the due set for good, and only failing
  ACTIVE rows are checked again. `CheckAllStocks` states this through its
  `events` postcondition, and `Bot.CycleOutcome` and `Bot.DueRowPoll` prove
  it. A design in which the scheduler re-checks out-of-stock rows is not
  what the code does.
- **Link extraction.** `_extract_mashkar_product_id` is modelled as the
  regex `/product/(\d+)`: the digits after the leftmost `/product/` that
  is followed by a digit. A URL whose first `/product/` has no digits after
  it still gives the id of a later one: `/product/x/product/12` gives `12`.
- **Pause and resume** call `update_tracking_status` with the default
  arguments, so they also reset the error count and the notification flag
  and stamp `last_checked`. Neither checks who owns the row.
- **The rate limiter** stores the pruned list back even when it refuses a
  request. Only the new timestamp is left unrecorded.

## Model

| member | source | states |
|---|---|---|
| Config.PostInit | config.py:54-61 | fails with a missing token exactly when the token is empty; fails with a missing webhook exactly when a token is set, the environment is production, there is no webhook URL and polling is not forced; otherwise returns the configuration unchanged |
| Config.DefaultConfig | config.py:21-48 | the default settings keep the four validated fields given, have 0 < MIN ≤ DEFAULT ≤ MAX interval, and have positive concurrency and rate-limit values |
| Config.EmptyTokenRejected | config.py:56-57 | any configuration with an empty token is rejected |
| Config.TokenGivenOutcome | config.py:59-61 | with a token, construction succeeds exactly unless it is production with no webhook URL and no forced polling |
| Config.LookupInFacts | config.py:64-157 | `SUPPORTED_CLUBS.get`: some club exactly when the id is in the registry, and then the club registered under that id |
| Config.AcceptsIffAccepted | bot.py:913-916 | a club answers to a host exactly when the host is its www-stripped base host or one of its www-stripped extra domains |
| ConfigFacts.ClubHosts | config.py:64-157 | each registry entry answers to exactly the hosts written out for it |
| ConfigFacts.RegistryHostsDisjoint | config.py:64-157 | no host answers to two registry entries |
| Bot.ValidateUrl | bot.py:906-925 | `_validate_url`, specified by `Bot.ValidateUrlAnyOrder` and `Bot.ValidateUrlNone`: the registry entry that answers to the lower-cased, www-stripped network location, and `None` when there is none |
| Bot.ValidateUrlAnyOrder | bot.py:906-925 | `_validate_url` returns entry `i` exactly when the lower-cased, www-stripped network location exists and entry `i` answers to it, whatever the position of that entry |
| Bot.ValidateUrlNone | bot.py:906-925 | `_validate_url` returns `None` exactly when there is no network location or no club answers to it |
| Bot.FirstWhereFirst | bot.py:912-922 | the registry scan returns the first entry that matches, and `None` exactly when none does |
| Bot.OneClubPerHost | bot.py:912-920 | two registry entries that answer to the same host are the same entry |
| Bot.FrequencyText | bot.py:927-936 | `_get_frequency_text`, specified by `Bot.FrequencyTextExamples` and `Bot.FrequencyTextCounts`: minutes below an hour, whole hours below a day, whole days otherwise, with the singular for one |
| Bot.FrequencyTextExamples | bot.py:927-936 | the texts for 10, 60, 120, 1440 and 2880 minutes |
| Bot.FrequencyTextCounts | bot.py:931-936 | two intervals in the same unit range have the same text only when they have the same whole number of hours, or of days |
| Bot.ClampInterval | bot.py:249 | `max(MIN, min(MAX, v))`, specified by `Bot.ClampBounds`: inside the bounds when they are ordered, unchanged when already inside, idempotent |
| Bot.ClampBounds | bot.py:249 | with ordered bounds the clamp lands inside them, leaves a value already inside unchanged, and is idempotent |
| Bot.DefaultBoundsOrdered | config.py:35-37 | the shipped bounds satisfy MIN ≤ DEFAULT ≤ MAX, so the clamp leaves the default unchanged |
| Bot.InitialIntervalInRange | bot.py:243-249 | a new tracking's interval is between the bounds: the user's stored default (or the global one) clamped when the user has a record, the global default otherwise |
| Bot.ErrorRecordsRefused | bot.py:222-226 | every error record the scraper builds (load error, timeout, HTTP status) makes the add-tracking path refuse the link |
| Bot.InvalidNameFacts | bot.py:233-239 | the placeholder test ignores padding, flags every name of at most two characters once stripped, and flags the scraper's own placeholder |
| Bot.Poll | bot.py:804-837 | the per-check transition of `_check_single_stock`, specified by `Bot.PollCounts` and `Bot.NotifyIff`: the new state, count and flag after a failed or successful check |
| Bot.PollCounts | bot.py:804-837 | a failed check adds one to the count and gives ERROR exactly at five or more (or when already ERROR), keeping the old state below five; a successful check clears the count and stores IN_STOCK exactly when the product is in stock, otherwise OUT_OF_STOCK |
| Bot.NotifyIff | bot.py:821-829 | the stored flag and the notification are set exactly when the old state is OUT_OF_STOCK, the check says in stock and no notification was sent yet |
| Bot.NoRepeatNotification | bot.py:826-841 | right after a notification, the next check of the stored row cannot notify again |
| Bot.ActiveNeverNotifies | bot.py:826-829 | an ACTIVE tracking is never notified, whatever its check shows, because a notification needs the stored state OUT_OF_STOCK |
| Bot.FailedPollsCount | bot.py:804-819 | after n failed checks in a row the count has grown by n, and the state is ERROR exactly when the count has reached five, otherwise the old state |
| Bot.FiveFailuresMeanError | bot.py:806-812 | five failed checks in a row always put a tracking in ERROR |
| Bot.DueRowPoll | bot.py:790-844 | a row the selection returns never notifies when checked; after a successful check it is no longer due at any cutoff; a failure below the threshold leaves it ACTIVE |
| Bot.Recent | bot.py:946-950 | the pruning of the user's timestamps, specified by `Bot.RecentFacts` |
| Bot.RecentFacts | bot.py:946-950 | the pruned list keeps exactly the timestamps after the cutoff and is no longer than before |
| Bot.RateStep | bot.py:938-958 | one call of the limiter on a user's list, specified by `Bot.RateStepFacts` |
| Bot.RateStepFacts | bot.py:938-958 | the limiter accepts exactly when fewer than the limit remain in the window; an accepted request is recorded and a refused one leaves exactly the pruned list; every other kept timestamp was already there and is inside the window; a list within the limit stays within it |
| Bot.CheckedFirstElsewhere | bot.py:776-783 | a check cycle leaves every row that no checked tracking names exactly as it was |
| Bot.CheckedFirstAt | bot.py:776-783 | with distinct ids, each checked tracking's row is updated exactly once, from its stored value, as a single check of that tracking would update it |
| Bot.CycleOutcome | bot.py:776-844 | in a cycle, a checked row of a known store stores the verdict, clears the count and leaves the due set when read successfully; when the read fails it adds one to the count and stamps the check time |
| Bot.StockTrackerBot.CheckRateLimit | bot.py:938-958 | returns the limiter's verdict on the user's cached list (empty when absent), stores the pruned list, with `now` appended on acceptance, and keeps every user's list within a non-negative limit |
| Bot.CheckedRowsWellFormed | bot.py:790-844 | a single check rewrites at most one row and keeps its id, user and URL, so the table stays well-formed |
| Bot.CheckedFirstWellFormed | bot.py:776-783 | a whole check cycle keeps the table well-formed: ids stay with their rows and below the counter, and no (user, URL) pair appears twice |
| Bot.StockTrackerBot.CheckSingleStock | bot.py:790-844 | an unknown store changes nothing; otherwise the stored row gets the poll of the quick check's verdict (nothing when the tracking has no id), and a `Notified` event is added exactly when the poll sets the flag |
| Bot.StockTrackerBot.CheckOne | bot.py:779-780 | one ACTIVE tracking of a batch is checked: the table gets exactly its update, as the cycle specification's next step, and no event |
| Bot.StockTrackerBot.CheckBatchOf | bot.py:779-780 | one batch of ACTIVE trackings, checked in order, adds the updates of exactly these trackings and no event |
| Bot.StockTrackerBot.RunBatches | bot.py:776-783 | the trackings are checked batch by batch in order, each once, and one pause follows each batch; no notification is sent |
| Bot.StockTrackerBot.CheckAllStocks | bot.py:762-788 | (corrected selection) checks the selection made with the default interval: at most 100 due rows, distinct, as stored. Nothing changes when there is nothing to check or the batch step is not positive. Otherwise every selected tracking is checked once in order, there is one pause per batch, and no notification |
| Bot.StockTrackerBot.PauseTracking | bot.py:521-538 | the row is set to PAUSED with a zero count and no notification sent; a missing id changes nothing |
| Bot.StockTrackerBot.ResumeTracking | bot.py:540-557 | the row is set to ACTIVE with a zero count and no notification sent; a missing id changes nothing |
| Bot.StockTrackerBot.SetFrequency | bot.py:635-644 | with exactly three parts and a digit run last, the user's default becomes the clamped value, creating the user record if needed; otherwise nothing changes |
| Bot.StockTrackerBot.TrackLink | bot.py:257-316 | an ERROR tracking of the same user and link is revived under its id with the new name, a zero count and the flag cleared; one in any other state is reported and left alone; with none, a new ACTIVE row is stored under the next id and both user counters go up |
| Bot.StockTrackerBot.HandleUrlInput | bot.py:208-352 | the stripped link is refused when no club answers to it, and the product when the lookup fails. Otherwise the link is stored as `TrackLink` states, with a new tracking that carries the club, the product name, the user's clamped interval and no product key. A placeholder name asks for a rename |
| Database.StatusFromValue | database.py:22-28 | the state read from a stored string is exactly the state whose value is that string, and `None` for any other string |
| Database.FromDoc | database.py:333-351 | a document is read back exactly when its state string is known, and then storing the row gives the document again |
| Database.ToDict | database.py:51-55 | `to_dict` stores the state as its string value; `Database.DocRoundTrip` proves it loses nothing |
| Database.DocRoundTrip | database.py:51-55 | `to_dict` followed by reading the document back returns the same row |
| Database.CountNewTracking | database.py:284-296 | both counters of the user go up by one (starting at one for a new user), `updated_at` is stamped, and no other user changes |
| Database.StatusUpdated | database.py:416-419 | `last_status_change` is stamped exactly when the state changes |
| Database.InsertKeepsOrder | database.py:329 | inserting a row into a newest-first list keeps it newest first |
| Database.InsertedOnce | database.py:332-352 | inserting a row with a new id keeps the ids distinct and adds exactly that row |
| Database.TrackingTable.AddTracking | database.py:259-299 | with an existing row for the same user and URL, returns its id and leaves the table as it is; otherwise inserts an ACTIVE row stamped `now` under the next id and counts it for the user; never two rows for one pair |
| Database.TrackingTable.GetUserTrackings | database.py:322-358 | returns exactly the user's rows (in the given state, when one is given), each once, newest `created_at` first |
| Database.TrackingTable.GetTrackingsToCheck | database.py:360-401 | (corrected selection) returns min(due, 100) distinct due rows, ACTIVE and never checked or last checked before `now - max_age`, as stored but without the product key |
| Database.SameShapeWellFormed | database.py:148-150 | rewriting rows in place while keeping each row's id, user and URL keeps the unique (user, URL) index and the ids intact |
| Database.StatusUpdatedWellFormed | database.py:403-428 | a status update of one row keeps the table well-formed |
| Database.TrackingTable.UpdateTrackingStatus | database.py:403-428 | sets the state, the count, the flag, `last_checked` and `updated_at` of the one row, and stamps `last_status_change` only on a change of state; nothing else changes |
| Database.TrackingTable.RemoveTracking | database.py:430-453 | deletes exactly when the id exists and belongs to the user, reports that, and only then takes one off the user's active count |
| Database.TrackingTable.ReviveTracking | bot.py:263-275 | the row goes back to ACTIVE with a zero count, no notification sent, the new name and `updated_at` stamped; nothing else changes |
| Database.TrackingTable.SetDefaultInterval | bot.py:640-644 | the user's default interval and `updated_at` are set, and a record is created when the user has none |
| Database.IsDue | database.py:365-371 | (corrected selection) an ACTIVE row is due when it was never checked or was last checked before the cutoff; `Database.NewRowIsDue` is its property |
| Database.IsDueAsWritten | database.py:365-371 | (selection as written) an ACTIVE row is due only when `last_checked` is set and before the cutoff; `Database.NewRowNeverDueAsWritten` is its property |
| Database.NewRowIsDue | database.py:365-371 | (corrected selection) a freshly added row is due at any cutoff |
| Database.NewRowNeverDueAsWritten | database.py:365-371 | (selection as written) a freshly added row is never selected |
| Scrapers.NameFromFirst | scrapers.py:408-413 | the name is the text of the first name selector with non-empty text, otherwise "לא זמין" |
| Scrapers.RenderedNameFromFirst | scrapers.py:301-394 | in the browser, the name is the first non-empty stripped text; it is empty when every element found strips to nothing, and keeps its starting value only when no element is found |
| Scrapers.PriceFromFirst | scrapers.py:424-431 | the price is the first selector text that holds a digit, and `None` exactly when there is none |
| Scrapers.FirstTextFromFirst | scrapers.py:437-447 | the stock text is the first non-empty element text, and empty exactly when all are empty |
| Scrapers.RenderedTextFromFirst | scrapers.py:301-394 | the browser's stock text is `None` exactly when an unreadable element comes before any non-blank one, empty exactly when all are blank, otherwise the first non-blank text |
| Scrapers.IndicatorFromFirst | scrapers.py:451-462 | the indicator found is the first in list order that occurs, and `None` exactly when none occurs |
| Scrapers.StockDecision | scrapers.py:449-465 | a non-empty stock text decides by its own indicators and is kept; without one, the first indicator on the page means out of stock and becomes the text, and in stock reads "במלאי" |
| Scrapers.ExtractSoup | scrapers.py:396-477 | the HTML extraction loop returns the record the specification function builds |
| Scrapers.ExtractRendered | scrapers.py:301-394 | the browser extraction loop returns the record the specification function builds |
| Scrapers.ReadFromStops | scrapers.py:546-551 | the quick read returns the first k chunks, stopping after the first chunk that takes it past 50000 characters, all of them when it never does, and `None` only when a chunk raised |
| Scrapers.QuickHttpVerdict | scrapers.py:534-564 | `None` for a failed request, a status other than 200 or an unreadable body; otherwise out of stock exactly when an indicator occurs in what was read |
| Scrapers.ElementHitIff | scrapers.py:511-513 | an element hits exactly when some lower-cased indicator occurs in its stripped, lower-cased text |
| Scrapers.ElementsOutOfStock | scrapers.py:507-515 | the element check is out of stock exactly when some element hits and every element before it was read without a hit |
| Scrapers.ElementsUnreadable | scrapers.py:507-525 | the element check is `None` exactly when an unreadable element comes before any hit |
| Scrapers.ElementsInStock | scrapers.py:509-515 | the element check is in stock exactly when every element was read without a hit |
| Scrapers.QuickRenderedWithoutElements | scrapers.py:516-522 | without stock elements the browser check scans the page source case-sensitively |
| Scrapers.QuickCheckWithHttp | scrapers.py:534-564 | the chunked-read loop returns the quick HTTP verdict |
| Scrapers.QuickCheckWithPlaywright | scrapers.py:479-532 | the element loop returns the quick browser verdict |
| Scrapers.StockStatus | scrapers.py:187-202 | `check_stock_status`: `None` for an unknown store, else the browser quick check for a club that needs JavaScript and the HTTP quick check otherwise; the loops are proved equal to it by `Scrapers.QuickCheckWithHttp` and `Scrapers.QuickCheckWithPlaywright` |
| Scrapers.CheckStockStatus | scrapers.py:187-202 | `None` for an unknown store; otherwise the quick check of the transport the club uses |
| Scrapers.Choose | scrapers.py:152-174 | the fallback rule of `get_product_info`, specified by `Scrapers.ChooseOutcomes` and the lemmas after it |
| Scrapers.ChooseOutcomes | scrapers.py:152-174 | a usable first attempt is returned; otherwise the second attempt's record unchanged; otherwise the load-error record carrying the first exception if there was one, else the second |
| Scrapers.UsableIgnoresSecond | scrapers.py:152-154 | a usable first attempt makes the second one irrelevant |
| Scrapers.HttpErrorsFallBack | scrapers.py:268-296 | an HTTP error status or a timeout is never a usable first attempt |
| Scrapers.RenderedTimeoutFallsBack | scrapers.py:238-247 | a browser timeout is never a usable first attempt |
| Scrapers.UnnamedPageFallsBack | scrapers.py:153 | a page with no named element is never a usable first attempt |
| Scrapers.ScrapeWithHttp | scrapers.py:255-299 | the HTTP transport returns the HTTP-error record for a non-200 status, the timeout record on a timeout, raises on any other failure, and otherwise the record `ExtractSoup` builds |
| Scrapers.ScrapeWithPlaywright | scrapers.py:204-253 | the browser transport returns the timeout record on a timeout, raises on a failed load, and otherwise the record `ExtractRendered` builds |
| Scrapers.GetProductInfo | scrapers.py:125-185 | returns the fallback rule's record; one transport is used when the first attempt is usable, exactly two otherwise, none for an unknown store |
| Scrapers.ExtractMashkarProductId | scrapers.py:592-599 | `_extract_mashkar_product_id`, specified by `Scrapers.MashkarIdShape` |
| Scrapers.IdFromLeftmost | scrapers.py:596-597 | the search is `None` exactly when no position holds `/product/` and a digit; otherwise it is the maximal digit run after the first such position |
| Scrapers.MashkarIdShape | scrapers.py:592-599 | the id is one or more ASCII digits that follow the leftmost `/product/` followed by a digit, and are not followed by another digit; `None` exactly when there is no such match |
| Scrapers.VerdictAt | scrapers.py:613-626 | item k's recorded verdict is the quick check of its own store and fetch |
| Scrapers.CollectedLast | scrapers.py:620-626 | every URL checked has an entry, holding the verdict of its last occurrence |
| Scrapers.CheckItem | scrapers.py:613-615 | item k is checked by the quick check of its own store with its own fetch |
| Scrapers.CheckBatch | scrapers.py:608-626 | one batch adds, in order, each item's verdict under its URL, so the results are those of all items up to the batch's end |
| Scrapers.CheckMultipleStocks | scrapers.py:602-631 | with step min(MAX_CONCURRENT_REQUESTS, 5): zero raises, a negative step gives an empty result, and a positive one gives one entry per URL (the last occurrence wins) and one pause per batch |
| Batching.Batches | bot.py:778-779 | every batch is non-empty and at most the step long, and all but the last are exactly the step long |
| Batching.FlattenBatches | bot.py:778-779 | the batches are consecutive slices that, joined, give the list back in order |
| Batching.BatchesFrom | scrapers.py:609-610 | the batch at a step boundary is the slice from there, followed by the batches of the rest |
| Text.StripIdempotent | bot.py:211 | stripping twice is stripping once |
| Text.StripSlice | bot.py:234 | the strip is a slice of the string with only stripped characters on either side, and neither starts nor ends with one |
| Text.IsSubstringOccurs | scrapers.py:452 | Python's `in` on strings holds exactly when some slice equals the pattern |
| Text.RemoveAll | bot.py:910 | `replace('www.', '')` never makes a host longer, and leaves a host without `w` unchanged |
| Text.NatText | bot.py:930-936 | the decimal text of a number is a non-empty run of digits, with no leading zero unless the number is zero |
| Text.NatTextRoundTrip | bot.py:638 | reading back the decimal text of a number gives the number |
| Text.NatTextInjective | bot.py:930-936 | different numbers have different decimal texts |
| Urls.Find | bot.py:909 | `find` returns -1 exactly when the character is absent, and otherwise the index of its first occurrence |
| Urls.Netloc | bot.py:909 | the network location never contains `/`, `?` or `#` |
| Urls.NetlocOfPlainUrl | config.py:67 | the network location of `http(s)://host` for a plain host name is the host itself |

## Findings

| source | as written | input that shows it | evidently intended | confidence | as-written member | corrected member |
|---|---|---|---|---|---|---|
| database.py:365-371 | selects ACTIVE rows whose `last_checked` is `$lt` the cutoff or does not `$exists` | any row stored by `add_tracking`: `to_dict` writes `last_checked: None`, which matches neither branch, so a new tracking is never selected until something else stamps it | rows never checked are due | not executed | Database.IsDueAsWritten, Database.NewRowNeverDueAsWritten | Database.IsDue, Database.NewRowIsDue |

`GetTrackingsToCheck` and the selection of the check cycle use `IsDue`; the
"## Left out" lines for both members say what the program as written does.

## Left out

- Telegram handlers, message texts, keyboards and the conversation states
  (bot.py:100-760): user interface. Only the decision rules in the handlers,
  and the table changes they make, are modelled.
- `main.py`, the scheduler, `_cleanup_old_data` and `get_stats`: process
  plumbing and statistics.
- Concurrency: `asyncio.gather` runs a batch concurrently; the model checks
  a batch's trackings in order. `asyncio.sleep` is recorded as a `Paused`
  event (or counted as `pauses` in `CheckMultipleStocks`).
- The browser and HTTP sessions: initialisation, the one-shot browser
  re-init, headers and timeouts (scrapers.py:67-123 and the transport parts
  of scrapers.py:204-299). A page is given as the texts that the selectors
  find.
- `_check_mashkar_stock` and `get_health_status`: network calls no path of
  the core reaches.
- MongoDB driver details: connecting, indexes, `get_or_create_user`,
  `save_alert`, the bot statistics, and the `DuplicateKeyError` race of
  `add_tracking`. Ids are natural numbers handed out in order.
- `_send_stock_notification`: the message, the `notifications_enabled`
  setting, the saved alert and the blocked-user flag. A notification is the
  event `Notified(tracking)`.
- The outer `try/except` blocks that log and drop an exception, such as
  `add_tracking` returning `None` (bot.py:314-316): the model has no
  failing store operations.
- `get_product_key` (bot.py:251-255): `StockScraper` has no such method, so
  the key is always `None` and duplicate links are matched only by URL.
- `handle_frequency_selection` (bot.py:359-413) writes the chosen interval
  into the row without clamping it. The check cycle never reads a row's
  interval, because it selects with the global default, so the value has
  no effect on anything modelled. The rename reply in
  `handle_generic_message` only rewrites the product name.
- Database.TrackingTable.GetTrackingsToCheck: selects with the corrected
  `Database.IsDue`, so a row never checked is due. The query as written
  selects with `Database.IsDueAsWritten`, which never matches a row whose
  `last_checked` is null. Every row `add_tracking` stores is such a row, so
  the program as written checks a new tracking only after pause or resume
  has stamped `last_checked` (see "## Findings").
- Bot.StockTrackerBot.CheckAllStocks: checks the rows of that corrected
  selection; the program as written checks only the rows that
  `Database.IsDueAsWritten` selects.
- Urls.Netloc: its contract states only that the result holds no
  delimiter. The value for the registry's URLs is stated by
  `Urls.NetlocOfPlainUrl` and `ConfigFacts.ClubHosts`.
- Text.Lower: only ASCII letters are lower-cased; Python's `str.lower` also
  folds other scripts. Two non-ASCII characters lower-case to ASCII
  letters there: U+212A KELVIN SIGN becomes `k`, and U+0130 becomes `i`
  followed by a combining dot. So `_validate_url` accepts
  `https://mash\u212Aarcard.co.il/product/1` as the mashkar club, while
  `Bot.ValidateUrl` returns `None` for it; and element text
  `OUT OF STOC\u212A` hits the "Out of Stock" indicator at scrapers.py:511-513,
  while `Scrapers.ElementHit` misses it. The same holds for every host and
  indicator that contains `k` (or `i`, for U+0130).
- Text.HasDigit and Bot.IsDigits: only ASCII digits count, whereas
  `str.isdigit` and `\d` also accept other Unicode digits.
- Bot.StockTrackerBot.CheckRateLimit: the bound it keeps is stated only for a
  non-negative limit. With a negative limit an empty list already breaks it,
  and the limiter refuses every request.
- Scrapers.Verdicts: its contract gives only the length; the value at each
  index is stated by `Scrapers.VerdictAt`.
