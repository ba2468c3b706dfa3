/**
 * The bot's configuration: the validated settings record and the constant
 * registry of supported shopping clubs, with the host names each club
 * answers to.
 */
module Config {
  import opened Wrappers
  import opened Text
  import opened Urls

  /** The settings read once at start-up. Intervals are in minutes, the rate-limit window in seconds. */
  datatype BotConfig = BotConfig(
    telegramToken: string,
    webhookUrl: string,
    webhookPort: int,
    mongodbUri: string,
    dbName: string,
    scraperTimeout: int,
    maxConcurrentRequests: int,
    userAgent: string,
    defaultCheckInterval: int,
    minCheckInterval: int,
    maxCheckInterval: int,
    rateLimitPerUser: int,
    rateLimitWindow: int,
    environment: string,
    debug: bool,
    forcePolling: bool,
    logLevel: string)

  /** Why constructing the configuration raised `ValueError`. */
  datatype ConfigError = MissingTelegramToken | MissingWebhookUrl

  /**
   * The check run after construction: a token is always required, and in
   * production a webhook URL is required unless polling is forced.
   */
  function PostInit(c: BotConfig): (r: Result<BotConfig, ConfigError>)
    ensures r == Failure(MissingTelegramToken) <==> c.telegramToken == ""
    ensures r == Failure(MissingWebhookUrl) <==>
              c.telegramToken != "" && c.environment == "production" && c.webhookUrl == "" && !c.forcePolling
    ensures r.Success? ==> r.value == c
  {
    if c.telegramToken == "" then Failure(MissingTelegramToken)
    else if c.environment == "production" && c.webhookUrl == "" && !c.forcePolling then Failure(MissingWebhookUrl)
    else Success(c)
  }

  /** The configuration with every setting at its default except the four the check looks at. */
  function DefaultConfig(token: string, webhookUrl: string, environment: string, forcePolling: bool): (c: BotConfig)
    ensures c.telegramToken == token && c.webhookUrl == webhookUrl
    ensures c.environment == environment && c.forcePolling == forcePolling
    ensures 0 < c.minCheckInterval <= c.defaultCheckInterval <= c.maxCheckInterval
    ensures c.maxConcurrentRequests > 0 && c.rateLimitPerUser > 0 && c.rateLimitWindow > 0
  {
    BotConfig(
      telegramToken := token,
      webhookUrl := webhookUrl,
      webhookPort := 10000,
      mongodbUri := "mongodb://localhost:27017/",
      dbName := "stock_tracker_bot",
      scraperTimeout := 30,
      maxConcurrentRequests := 10,
      userAgent := "StockTracker Bot/1.0",
      defaultCheckInterval := 60,
      minCheckInterval := 10,
      maxCheckInterval := 1440,
      rateLimitPerUser := 50,
      rateLimitWindow := 86400,
      environment := environment,
      debug := false,
      forcePolling := forcePolling,
      logLevel := "INFO")
  }

  /** Construction fails without a token, whatever else is set. */
  lemma EmptyTokenRejected(c: BotConfig)
    requires c.telegramToken == ""
    ensures PostInit(c).Failure?
  {
  }

  /** With a token, construction fails exactly in production without a webhook URL and without forced polling. */
  lemma {:induction false} TokenGivenOutcome(token: string, webhookUrl: string, environment: string, forcePolling: bool)
    requires token != ""
    ensures PostInit(DefaultConfig(token, webhookUrl, environment, forcePolling)).Success?
            <==> !(environment == "production" && webhookUrl == "" && !forcePolling)
  {
  }

  /** One supported club: its display name, address, extra host names and stock markers. */
  datatype Club = Club(
    name: string,
    baseUrl: string,
    domains: seq<string>,
    stockSelector: string,
    outOfStockIndicators: seq<string>,
    requiresJs: bool)

  // The host names of the registry, each written once; the base URLs and
  // extra names below are built from them.
  const MashkarHost: string := "mashkarcard.co.il"
  const MeshekardHost: string := "meshekard.co.il"
  const HotHost: string := "hot.net.il"
  const CorporateHost: string := "corporate.co.il"
  const MyCorporateHost: string := "mycorporate.co.il"
  const LivingHost: string := "living.co.il"
  const LivingClubHost: string := "livingclub.co.il"
  const BehazdaaHost: string := "behazdaa.co.il"
  const BuffHost: string := "buff.co.il"
  const BttruHost: string := "bttru.co.il"
  const HaverHost: string := "haver.co.il"
  const AshmuratHost: string := "ashmurat.co.il"
  const TeachersHost: string := "shop.itu.org.il"
  const IntelHost: string := "intel-shop.co.il"
  const Shufersal4uHost: string := "shufersal4u.co.il"

  const MashkarClub: Club := Club("משקארד", "https://www." + MashkarHost,
    [MeshekardHost, MashkarHost],
    ".product-stock-status", ["אזל מהמלאי", "לא זמין"], false)

  const HotClub: Club := Club("מועדון הוט", "https://www." + HotHost, [],
    ".availability-status", ["אזל", "לא זמין"], false)

  const CorporateClub: Club := Club("Corporate", "https://www." + CorporateHost, [MyCorporateHost],
    ".stock-status", ["אזל מהמלאי", "Out of Stock"], true)

  const LivingClub: Club := Club("Living", "https://www." + LivingHost,
    [LivingHost, "www." + LivingHost, LivingClubHost, "www." + LivingClubHost],
    ".product-availability", ["אזל", "לא זמין", "זמנית לא זמין"], false)

  const BehazdaaClub: Club := Club("בהצדעה", "https://www." + BehazdaaHost, [],
    ".availability", ["אזל מהמלאי"], true)

  const BuffClub: Club := Club("Buff", "https://www." + BuffHost, [],
    ".stock-info", ["אזל", "Out of Stock"], true)

  const BttruClub: Club := Club("Bttru", "https://www." + BttruHost, [],
    ".product-stock", ["אזל מהמלאי", "לא זמין"], false)

  const HaverClub: Club := Club("חבר", "https://www." + HaverHost, [],
    ".availability-status", ["אזל", "זמנית לא זמין"], true)

  const AshmuratClub: Club := Club("אשמורת", "https://www." + AshmuratHost, [],
    ".stock-status", ["אזל מהמלאי", "לא זמין"], false)

  const TeachersClub: Club := Club("ארגון המורים", "https://" + TeachersHost, [],
    ".product-availability", ["אזל", "לא זמין במלאי"], true)

  const IntelClub: Club := Club("אינטל", "https://" + IntelHost, [],
    ".availability", ["אזל מהמלאי", "Out of Stock"], false)

  const Shufersal4uClub: Club := Club("שופרסל 4U", "https://www." + Shufersal4uHost, [],
    ".product-availability", ["אזל", "לא זמין", "זמנית לא זמין"], true)

  /** The supported clubs, keyed by store id, in the order the dictionary lists them. */
  const SupportedClubs: seq<(string, Club)> := [
    ("mashkar", MashkarClub),
    ("hot", HotClub),
    ("corporate", CorporateClub),
    ("living", LivingClub),
    ("behazdaa", BehazdaaClub),
    ("buff", BuffClub),
    ("bttru", BttruClub),
    ("haver", HaverClub),
    ("ashmurat", AshmuratClub),
    ("teachers", TeachersClub),
    ("intel", IntelClub),
    ("shufersal4u", Shufersal4uClub)
  ]

  /** `SUPPORTED_CLUBS.get(storeId)`: the first entry with that id. */
  function LookupClub(storeId: string): Option<Club>
  {
    LookupIn(SupportedClubs, storeId)
  }

  /** The club of the first entry of `clubs` with id `storeId`, if any. */
  function LookupIn(clubs: seq<(string, Club)>, storeId: string): Option<Club>
  {
    if |clubs| == 0 then None
    else if clubs[0].0 == storeId then Some(clubs[0].1)
    else LookupIn(clubs[1..], storeId)
  }

  /** The lookup finds a club exactly when some entry has the id, and then it is the club of such an entry. */
  lemma {:induction false} LookupInFacts(clubs: seq<(string, Club)>, storeId: string)
    ensures LookupIn(clubs, storeId).Some? <==> exists i :: 0 <= i < |clubs| && clubs[i].0 == storeId
    ensures LookupIn(clubs, storeId).Some? ==> exists i :: 0 <= i < |clubs| && clubs[i] == (storeId, LookupIn(clubs, storeId).value)
  {
    if |clubs| > 0 && clubs[0].0 != storeId {
      LookupInFacts(clubs[1..], storeId);
      assert forall i :: 0 <= i < |clubs| - 1 ==> clubs[1..][i] == clubs[i + 1];
      assert (exists i :: 0 <= i < |clubs| && clubs[i].0 == storeId) ==> exists i :: 0 <= i < |clubs| - 1 && clubs[1..][i].0 == storeId;
    } else if |clubs| > 0 {
      assert clubs[0] == (storeId, clubs[0].1);
    }
  }

  /** A host name with every `www.` deleted, as the lookup compares hosts. */
  function StripWww(host: string): string { RemoveAll(host, "www.") }

  /** The host of the club's base URL with `www.` deleted; `None` where `urlparse` raises. */
  function StoreDomain(c: Club): Option<string> {
    match Netloc(c.baseUrl)
    case Some(h) => Some(StripWww(h))
    case None => None
  }

  /** The club's extra host names with `www.` deleted, as a set. */
  function ExtraDomains(c: Club): set<string> {
    set i | 0 <= i < |c.domains| :: StripWww(c.domains[i])
  }

  /** Whether the club answers to a (www-stripped) host. */
  predicate Accepts(c: Club, domain: string) {
    match StoreDomain(c)
    case Some(d) => domain == d || domain in ExtraDomains(c)
    case None => false
  }

  /** Every host a club answers to. */
  function AcceptedHosts(c: Club): set<string> {
    match StoreDomain(c)
    case Some(d) => {d} + ExtraDomains(c)
    case None => {}
  }

  lemma AcceptsIffAccepted(c: Club, domain: string)
    ensures Accepts(c, domain) <==> domain in AcceptedHosts(c)
  {
  }
}

module ConfigFacts {
  import opened Wrappers
  import opened Text
  import opened Urls
  import opened Config

  /** The hosts each registry entry answers to, written out in registry order. */
  const RegistryHosts: seq<set<string>> := [
    {MashkarHost, MeshekardHost},
    {HotHost},
    {CorporateHost, MyCorporateHost},
    {LivingHost, LivingClubHost},
    {BehazdaaHost},
    {BuffHost},
    {BttruHost},
    {HaverHost},
    {AshmuratHost},
    {TeachersHost},
    {IntelHost},
    {Shufersal4uHost}
  ]

  /** A host name made of lower-case letters, digits, dots and dashes, with no `w`. */
  predicate PlainHost(h: string) {
    'w' !in h && forall ch :: ch in h ==> IsHostChar(ch)
  }

  lemma StripWwwPlain(h: string)
    requires 'w' !in h
    ensures StripWww(h) == h
    ensures StripWww("www." + h) == h
  {
    RemoveAllPrefix("www.", h);
  }

  lemma WwwHostChars(h: string)
    requires forall ch :: ch in h ==> IsHostChar(ch)
    ensures forall ch :: ch in "www." + h ==> IsHostChar(ch)
  {
    assert forall ch :: ch in "www." + h ==> ch in "www." || ch in h;
  }

  /** The base URL `https://host` of a club has network location `host`. */
  lemma DomainOfUrl(c: Club, host: string)
    requires c.baseUrl == "https://" + host
    requires forall ch :: ch in host ==> IsHostChar(ch)
    ensures Netloc(c.baseUrl) == Some(host)
    ensures StoreDomain(c) == Some(StripWww(host))
  {
    NetlocOfPlainUrl("https", host);
  }

  /** A club whose base URL is `https://` and a plain host answers to that host without `www.` and its extra names. */
  lemma HostsOfPlainBase(c: Club, full: string, h: string)
    requires c.baseUrl == "https://" + full
    requires full == "www." + h || full == h
    requires 'w' !in h && forall ch :: ch in full ==> IsHostChar(ch)
    ensures AcceptedHosts(c) == {h} + ExtraDomains(c)
  {
    DomainOfUrl(c, full);
    StripWwwPlain(h);
  }

  /** Extra names listed both bare and with `www.` collapse to the bare names. */
  lemma PairedExtras(c: Club, h: string, e: string)
    requires c.domains == [h, "www." + h, e, "www." + e]
    requires 'w' !in h && 'w' !in e
    ensures ExtraDomains(c) == {h, e}
  {
    StripWwwPlain(h);
    StripWwwPlain(e);
    assert ExtraDomains(c) == {StripWww(c.domains[0]), StripWww(c.domains[1]), StripWww(c.domains[2]), StripWww(c.domains[3])};
  }

  /** A club without extra host names answers to its base URL's host alone. */
  lemma HostsWithoutExtras(c: Club, full: string, h: string)
    requires c.baseUrl == "https://" + full && c.domains == []
    requires full == "www." + h || full == h
    requires 'w' !in h && forall ch :: ch in full ==> IsHostChar(ch)
    ensures AcceptedHosts(c) == {h}
  {
    HostsOfPlainBase(c, full, h);
    assert ExtraDomains(c) == {};
  }

  /** A club with one plain extra host name answers to its base URL's host and that name. */
  lemma HostsWithOneExtra(c: Club, full: string, h: string, e: string)
    requires c.baseUrl == "https://" + full && c.domains == [e]
    requires full == "www." + h
    requires 'w' !in h && 'w' !in e && forall ch :: ch in full ==> IsHostChar(ch)
    ensures AcceptedHosts(c) == {h, e}
  {
    HostsOfPlainBase(c, full, h);
    StripWwwPlain(e);
    assert ExtraDomains(c) == {StripWww(c.domains[0])};
  }

  /** A club with two plain extra host names answers to its base URL's host and those names. */
  lemma HostsWithTwoExtras(c: Club, full: string, h: string, e1: string, e2: string)
    requires c.baseUrl == "https://" + full && c.domains == [e1, e2]
    requires full == "www." + h
    requires 'w' !in h && 'w' !in e1 && 'w' !in e2 && forall ch :: ch in full ==> IsHostChar(ch)
    ensures AcceptedHosts(c) == {h, e1, e2}
  {
    HostsOfPlainBase(c, full, h);
    StripWwwPlain(e1);
    StripWwwPlain(e2);
    assert ExtraDomains(c) == {StripWww(c.domains[0]), StripWww(c.domains[1])};
  }

  /** A club whose extra names are its own host and one more, each bare and with `www.`. */
  lemma HostsWithPairedExtras(c: Club, full: string, h: string, e: string)
    requires c.baseUrl == "https://" + full && c.domains == [h, "www." + h, e, "www." + e]
    requires full == "www." + h
    requires 'w' !in h && 'w' !in e && forall ch :: ch in full ==> IsHostChar(ch)
    ensures AcceptedHosts(c) == {h, e}
  {
    HostsOfPlainBase(c, full, h);
    PairedExtras(c, h, e);
  }

  lemma MashkarHosts(c: Club)
    requires c == MashkarClub
    ensures AcceptedHosts(c) == {MashkarHost, MeshekardHost}
  {
    assert PlainHost(MashkarHost) && PlainHost(MeshekardHost);
    WwwHostChars(MashkarHost);
    HostsWithTwoExtras(c, "www." + MashkarHost, MashkarHost, MeshekardHost, MashkarHost);
  }

  lemma HotHosts(c: Club)
    requires c == HotClub
    ensures AcceptedHosts(c) == {HotHost}
  {
    assert PlainHost(HotHost);
    WwwHostChars(HotHost);
    HostsWithoutExtras(c, "www." + HotHost, HotHost);
  }

  lemma CorporateHosts(c: Club)
    requires c == CorporateClub
    ensures AcceptedHosts(c) == {CorporateHost, MyCorporateHost}
  {
    assert PlainHost(CorporateHost) && PlainHost(MyCorporateHost);
    WwwHostChars(CorporateHost);
    HostsWithOneExtra(c, "www." + CorporateHost, CorporateHost, MyCorporateHost);
  }

  lemma LivingHosts(c: Club)
    requires c == LivingClub
    ensures AcceptedHosts(c) == {LivingHost, LivingClubHost}
  {
    assert PlainHost(LivingHost) && PlainHost(LivingClubHost);
    WwwHostChars(LivingHost);
    HostsWithPairedExtras(c, "www." + LivingHost, LivingHost, LivingClubHost);
  }

  lemma BehazdaaHosts(c: Club)
    requires c == BehazdaaClub
    ensures AcceptedHosts(c) == {BehazdaaHost}
  {
    assert PlainHost(BehazdaaHost);
    WwwHostChars(BehazdaaHost);
    HostsWithoutExtras(c, "www." + BehazdaaHost, BehazdaaHost);
  }

  lemma BuffHosts(c: Club)
    requires c == BuffClub
    ensures AcceptedHosts(c) == {BuffHost}
  {
    assert PlainHost(BuffHost);
    WwwHostChars(BuffHost);
    HostsWithoutExtras(c, "www." + BuffHost, BuffHost);
  }

  lemma BttruHosts(c: Club)
    requires c == BttruClub
    ensures AcceptedHosts(c) == {BttruHost}
  {
    assert PlainHost(BttruHost);
    WwwHostChars(BttruHost);
    HostsWithoutExtras(c, "www." + BttruHost, BttruHost);
  }

  lemma HaverHosts(c: Club)
    requires c == HaverClub
    ensures AcceptedHosts(c) == {HaverHost}
  {
    assert PlainHost(HaverHost);
    WwwHostChars(HaverHost);
    HostsWithoutExtras(c, "www." + HaverHost, HaverHost);
  }

  lemma AshmuratHosts(c: Club)
    requires c == AshmuratClub
    ensures AcceptedHosts(c) == {AshmuratHost}
  {
    assert PlainHost(AshmuratHost);
    WwwHostChars(AshmuratHost);
    HostsWithoutExtras(c, "www." + AshmuratHost, AshmuratHost);
  }

  lemma TeachersHosts(c: Club)
    requires c == TeachersClub
    ensures AcceptedHosts(c) == {TeachersHost}
  {
    assert PlainHost(TeachersHost);
    HostsWithoutExtras(c, TeachersHost, TeachersHost);
  }

  lemma IntelHosts(c: Club)
    requires c == IntelClub
    ensures AcceptedHosts(c) == {IntelHost}
  {
    assert PlainHost(IntelHost);
    HostsWithoutExtras(c, IntelHost, IntelHost);
  }

  lemma Shufersal4uHosts(c: Club)
    requires c == Shufersal4uClub
    ensures AcceptedHosts(c) == {Shufersal4uHost}
  {
    assert PlainHost(Shufersal4uHost);
    WwwHostChars(Shufersal4uHost);
    HostsWithoutExtras(c, "www." + Shufersal4uHost, Shufersal4uHost);
  }

  /** Each registry entry answers to exactly the hosts listed for it in `RegistryHosts`. */
  lemma ClubHosts(i: nat)
    requires i < |SupportedClubs|
    ensures AcceptedHosts(SupportedClubs[i].1) == RegistryHosts[i]
  {
    var c := SupportedClubs[i].1;
    if i == 0 {
      MashkarHosts(c);
    } else if i == 1 {
      HotHosts(c);
    } else if i == 2 {
      CorporateHosts(c);
    } else if i == 3 {
      LivingHosts(c);
    } else if i == 4 {
      BehazdaaHosts(c);
    } else if i == 5 {
      BuffHosts(c);
    } else if i == 6 {
      BttruHosts(c);
    } else if i == 7 {
      HaverHosts(c);
    } else if i == 8 {
      AshmuratHosts(c);
    } else if i == 9 {
      TeachersHosts(c);
    } else if i == 10 {
      IntelHosts(c);
    } else {
      Shufersal4uHosts(c);
    }
  }

  lemma RegistryHostsDisjoint()
    ensures |RegistryHosts| == |SupportedClubs|
    ensures forall i, j :: 0 <= i < j < |RegistryHosts| ==> RegistryHosts[i] !! RegistryHosts[j]
  {
  }
}
