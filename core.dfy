/** The extension controller `Babel`, the per-application state record it
    installs in `app.extensions["babel"]`, the directory scan that lists the
    available translations, and the two-level date-format lookup that the
    controller's format table drives.

    The locale library (`Locale.parse`, `ZoneInfo`) and the filesystem are
    inputs: a parser function, a zone loader function and a directory tree.
    The application whose state a call uses (what `get_state()` finds
    through the current application context) is passed explicitly. */
module Core {
  import opened Wrappers
  import opened Constants

  /** A locale object made by the locale library; the model never looks inside it. */
  datatype Locale = Locale(handle: nat)

  /** A timezone object made by `ZoneInfo`; opaque likewise. */
  datatype Timezone = Timezone(handle: nat)

  /** `Locale.parse`: `None` stands for the error it raises on a tag it does not know. */
  type LocaleParser = string -> Option<Locale>

  /** `ZoneInfo(name)`: `None` stands for the error it raises on an unknown zone. */
  type ZoneLoader = string -> Option<Timezone>

  /** A registered selector callback: no arguments, an optional tag. */
  type Selector = () -> Option<string>

  /** The exceptions the modelled operations let through. */
  datatype Error =
    | KeyError(key: string)           // a key read with `[...]` is missing
    | TypeError(key: string)          // a config value that must be a string is not one
    | UnknownLocale(tag: string)      // `Locale.parse` rejected the tag
    | UnknownTimezone(name: string)   // `ZoneInfo` rejected the name

  /** A translation domain. Its catalogs and lookups are not part of this
      model; only its identity matters here. */
  class Domain {
    constructor ()
    {
    }
  }

  /** A value stored in `app.config`. */
  datatype ConfigValue = Text(text: string) | Flag(flag: bool) | DomainValue(domain: Domain) | Other(id: nat)

  /** A value stored in `app.extensions`. */
  datatype Extension = BabelExtension(state: BabelState) | OtherExtension(id: nat)

  /** The parts of a Flask application the extension touches. */
  class App {
    var config: map<string, ConfigValue>
    var extensions: map<string, Extension>

    constructor (config: map<string, ConfigValue>)
      ensures this.config == config && extensions == map[]
    {
      this.config := config;
      extensions := map[];
    }
  }

  /** A date-format table. It is an object because `Babel` keeps the very
      table a caller hands in, so later writes through either name are seen
      by both. */
  class FormatTable {
    var entries: map<DateFormatKey, DateFormat>

    constructor (entries: map<DateFormatKey, DateFormat>)
      ensures this.entries == entries
    {
      this.entries := entries;
    }

    /** `table[key] = value`. */
    method Set(key: DateFormatKey, value: DateFormat)
      modifies this
      ensures entries == old(entries)[key := value]
    {
      entries := entries[key := value];
    }
  }

  /** The state record one application holds for the extension. */
  class BabelState {
    const babel: Babel
    const app: App
    const domain: Domain
    var localeCache: map<string, Locale>
    /** The tags `LoadLocale` has handed to the parser through this record, in order. */
    ghost var parseCalls: seq<string>

    constructor (babel: Babel, app: App, domain: Domain)
      ensures this.babel == babel && this.app == app && this.domain == domain
      ensures localeCache == map[] && parseCalls == []
    {
      this.babel := babel;
      this.app := app;
      this.domain := domain;
      localeCache := map[];
      parseCalls := [];
    }
  }

  /** `config.setdefault(key, value)`: writes `value` only when `key` is absent. */
  function SetDefault(config: map<string, ConfigValue>, key: string, value: ConfigValue): (r: map<string, ConfigValue>)
    ensures r.Keys == config.Keys + {key}
    ensures forall k :: k in config ==> r[k] == config[k]
    ensures key !in config ==> r[key] == value
  {
    if key in config then config else config[key := value]
  }

  const BABEL_CONFIG_KEYS: set<string> :=
    {"BABEL_DEFAULT_LOCALE", "BABEL_DEFAULT_TIMEZONE", "BABEL_CONFIGURE_JINJA", "BABEL_DOMAIN"}

  /** The four `setdefault` calls of `init_app`, in order. */
  function BabelConfigDefaults(config: map<string, ConfigValue>, defaultLocale: string, defaultTimezone: string,
                               configureJinja: bool, domain: Domain): (r: map<string, ConfigValue>)
    ensures r.Keys == config.Keys + BABEL_CONFIG_KEYS
    ensures forall k :: k in config ==> r[k] == config[k]
    ensures "BABEL_DEFAULT_LOCALE" !in config ==> r["BABEL_DEFAULT_LOCALE"] == Text(defaultLocale)
    ensures "BABEL_DEFAULT_TIMEZONE" !in config ==> r["BABEL_DEFAULT_TIMEZONE"] == Text(defaultTimezone)
    ensures "BABEL_CONFIGURE_JINJA" !in config ==> r["BABEL_CONFIGURE_JINJA"] == Flag(configureJinja)
    ensures "BABEL_DOMAIN" !in config ==> r["BABEL_DOMAIN"] == DomainValue(domain)
  {
    var c1 := SetDefault(config, "BABEL_DEFAULT_LOCALE", Text(defaultLocale));
    var c2 := SetDefault(c1, "BABEL_DEFAULT_TIMEZONE", Text(defaultTimezone));
    var c3 := SetDefault(c2, "BABEL_CONFIGURE_JINJA", Flag(configureJinja));
    SetDefault(c3, "BABEL_DOMAIN", DomainValue(domain))
  }

  /** Running the defaults a second time, with any arguments, changes nothing:
      every key they write is already present. */
  lemma {:induction false} BabelConfigDefaultsIdempotent(config: map<string, ConfigValue>,
      l1: string, t1: string, j1: bool, d1: Domain, l2: string, t2: string, j2: bool, d2: Domain)
    ensures var once := BabelConfigDefaults(config, l1, t1, j1, d1);
            BabelConfigDefaults(once, l2, t2, j2, d2) == once
  {
    var once := BabelConfigDefaults(config, l1, t1, j1, d1);
    var twice := BabelConfigDefaults(once, l2, t2, j2, d2);
    assert twice.Keys == once.Keys;
  }

  /** On an application with no Babel settings, `init_app` with its default
      arguments configures English and UTC, Jinja support and the domain. */
  lemma FreshAppDefaults(config: map<string, ConfigValue>, domain: Domain)
    requires config.Keys !! BABEL_CONFIG_KEYS
    ensures var r := BabelConfigDefaults(config, DEFAULT_LOCALE, DEFAULT_TIMEZONE, true, domain);
            && r["BABEL_DEFAULT_LOCALE"] == Text("en") && r["BABEL_DEFAULT_TIMEZONE"] == Text("UTC")
            && r["BABEL_CONFIGURE_JINJA"] == Flag(true) && r["BABEL_DOMAIN"] == DomainValue(domain)
  {
    assert "BABEL_DEFAULT_LOCALE" in BABEL_CONFIG_KEYS && "BABEL_DEFAULT_TIMEZONE" in BABEL_CONFIG_KEYS;
    assert "BABEL_CONFIGURE_JINJA" in BABEL_CONFIG_KEYS && "BABEL_DOMAIN" in BABEL_CONFIG_KEYS;
  }

  /** The state `app.extensions["babel"]` holds, if the extension is installed. */
  function StateOf(app: App): Option<BabelState>
    reads app
  {
    if "babel" in app.extensions && app.extensions["babel"].BabelExtension?
    then Some(app.extensions["babel"].state) else None
  }

  /** What `init_app` leaves behind: the config defaults filled in, a fresh
      state record installed, and the format table chosen. */
  twostate predicate InitAppDone(new b: Babel, app: App, defaultLocale: string, defaultTimezone: string,
                                 formats: Option<FormatTable>, configureJinja: bool, defaultDomain: Option<Domain>)
    reads b, app, (if StateOf(app).Some? then {StateOf(app).value} else {}),
      (if b.dateFormats.Some? then {b.dateFormats.value} else {})
  {
    && StateOf(app).Some?
    && var state := StateOf(app).value;
    && fresh(state)
    && state.babel == b && state.app == app
    && state.localeCache == map[] && state.parseCalls == []
    && (match defaultDomain
        case Some(d) => state.domain == d
        case None => fresh(state.domain))
    && app.config == BabelConfigDefaults(old(app.config), defaultLocale, defaultTimezone, configureJinja, state.domain)
    && app.extensions == old(app.extensions)["babel" := BabelExtension(state)]
    && (match formats
        case Some(t) => b.dateFormats == Some(t)
        case None =>
          && b.dateFormats.Some? && fresh(b.dateFormats.value)
          && b.dateFormats.value.entries == DEFAULT_DATE_FORMATS)
  }

  /** `Locale.parse(locale)`, with its error as a value. */
  function ParseLocale(locale: string, parse: LocaleParser): (r: Result<Locale, Error>)
    ensures r.Success? <==> parse(locale).Some?
    ensures r.Success? ==> r.value == parse(locale).value
    ensures r.Failure? ==> r.error == UnknownLocale(locale)
  {
    match parse(locale)
    case Some(l) => Success(l)
    case None => Failure(UnknownLocale(locale))
  }

  /** What `load_locale(locale)` returns for a given cache: the cached
      object on a hit, a fresh parse on a miss. */
  function CachedParse(cache: map<string, Locale>, locale: string, parse: LocaleParser): (r: Result<Locale, Error>)
    ensures locale in cache ==> r == Success(cache[locale])
    ensures locale !in cache ==> r == ParseLocale(locale, parse)
  {
    if locale in cache then Success(cache[locale]) else ParseLocale(locale, parse)
  }

  /** The cache after `load_locale(locale)`: a miss that parses inserts
      `locale`; nothing else changes. */
  function CacheAfter(cache: map<string, Locale>, locale: string, parse: LocaleParser): (r: map<string, Locale>)
    ensures CachedParse(cache, locale, parse).Success? <==> locale in r
    ensures locale in r ==> r[locale] == CachedParse(cache, locale, parse).value
    ensures forall k :: k != locale ==> (k in r <==> k in cache)
    ensures forall k :: k in cache ==> k in r && r[k] == cache[k]
  {
    if locale !in cache && parse(locale).Some? then cache[locale := parse(locale).value] else cache
  }

  /** Every cached object is what the parser makes of its key. */
  ghost predicate Faithful(cache: map<string, Locale>, parse: LocaleParser) {
    forall k :: k in cache ==> parse(k) == Some(cache[k])
  }

  /** Memoisation is invisible: over a faithful cache the memoised parse
      returns what a plain parse returns, and the cache stays faithful. */
  lemma {:induction false} MemoisedParseAgrees(cache: map<string, Locale>, locale: string, parse: LocaleParser)
    requires Faithful(cache, parse)
    ensures CachedParse(cache, locale, parse) == ParseLocale(locale, parse)
    ensures Faithful(CacheAfter(cache, locale, parse), parse)
  {
    var after := CacheAfter(cache, locale, parse);
    forall k | k in after
      ensures parse(k) == Some(after[k])
    {
      if k != locale {
        assert k in cache;
      }
    }
  }

  /** A second load of the same tag hits: it returns what the first returned
      and leaves the cache as the first left it. */
  lemma SecondLoadHits(cache: map<string, Locale>, locale: string, parse: LocaleParser)
    ensures var after := CacheAfter(cache, locale, parse);
            && CachedParse(after, locale, parse) == CachedParse(cache, locale, parse)
            && CacheAfter(after, locale, parse) == after
  {
  }

  /** A load adds at most one entry to the cache, however often it runs. */
  lemma {:induction false} CacheGrowsByAtMostOne(cache: map<string, Locale>, locale: string, parse: LocaleParser)
    ensures |CacheAfter(cache, locale, parse)| <= |cache| + 1
    ensures CacheAfter(cache, locale, parse).Keys <= cache.Keys + {locale}
  {
    var after := CacheAfter(cache, locale, parse);
    assert after.Keys <= cache.Keys + {locale};
    if locale in cache {
      assert after.Keys == cache.Keys;
    } else {
      assert |cache.Keys + {locale}| == |cache.Keys| + 1;
    }
    SubsetCard(after.Keys, cache.Keys + {locale});
  }

  lemma {:induction false} SubsetCard<T>(a: set<T>, b: set<T>)
    requires a <= b
    ensures |a| <= |b|
  {
    if a != {} {
      var x :| x in a;
      SubsetCard(a - {x}, b - {x});
    }
  }

  /** The effect of `load_locale(locale)` on a state record: the cache as
      `CacheAfter` says, and one parser call exactly on a miss. */
  twostate predicate Loaded(state: BabelState, locale: string, parse: LocaleParser)
    reads state
  {
    && state.localeCache == CacheAfter(old(state.localeCache), locale, parse)
    && state.parseCalls == old(state.parseCalls) + (if locale in old(state.localeCache) then [] else [locale])
  }

  /** `config[key]` where the value must be a string. */
  function ConfigText(config: map<string, ConfigValue>, key: string): (r: Result<string, Error>)
    ensures r.Success? <==> key in config && config[key].Text?
    ensures r.Success? ==> config[key] == Text(r.value)
    ensures key !in config ==> r == Failure(KeyError(key))
  {
    if key !in config then Failure(KeyError(key))
    else if config[key].Text? then Success(config[key].text)
    else Failure(TypeError(key))
  }

  /** The extension controller. */
  class Babel {
    var app: App?
    var localeSelector: Option<Selector>
    var timezoneSelector: Option<Selector>
    /** `None` until `InitApp` chooses a table: the source declares the
        attribute without assigning it. */
    var dateFormats: Option<FormatTable>

    /** `Babel(app, ...)`: both selector slots empty, and with an application
        the same effect as `InitApp` on it. */
    constructor (app: App?, defaultLocale: string, defaultTimezone: string, formats: Option<FormatTable>,
                 configureJinja: bool, defaultDomain: Option<Domain>)
      modifies app
      ensures this.app == app && localeSelector == None && timezoneSelector == None
      ensures app == null ==> dateFormats == None
      ensures app != null ==> InitAppDone(this, app, defaultLocale, defaultTimezone, formats, configureJinja, defaultDomain)
    {
      this.app := app;
      localeSelector := None;
      timezoneSelector := None;
      dateFormats := None;
      new;
      if app != null {
        InitApp(app, defaultLocale, defaultTimezone, formats, configureJinja, defaultDomain);
      }
    }

    /** `init_app`: fills in the four config keys that are absent, installs
        a fresh state record and chooses the date-format table. */
    method InitApp(app: App, defaultLocale: string, defaultTimezone: string, formats: Option<FormatTable>,
                   configureJinja: bool, defaultDomain: Option<Domain>)
      modifies this`dateFormats, app
      ensures InitAppDone(this, app, defaultLocale, defaultTimezone, formats, configureJinja, defaultDomain)
      ensures this.app == old(this.app)
      ensures localeSelector == old(localeSelector) && timezoneSelector == old(timezoneSelector)
    {
      var domain: Domain;
      if defaultDomain.None? {
        domain := new Domain();
      } else {
        domain := defaultDomain.value;
      }
      app.config := BabelConfigDefaults(app.config, defaultLocale, defaultTimezone, configureJinja, domain);
      var state := new BabelState(this, app, domain);
      app.extensions := app.extensions["babel" := BabelExtension(state)];
      assert StateOf(app) == Some(state);
      if formats.Some? {
        dateFormats := formats;
      } else {
        var table := new FormatTable(DEFAULT_DATE_FORMATS);
        dateFormats := Some(table);
      }
    }

    /** `localeselector(f)`: installs `f` in the locale slot and hands it back. */
    method LocaleSelector(f: Selector) returns (r: Selector)
      modifies this`localeSelector
      ensures localeSelector == Some(f) && r == f
      ensures timezoneSelector == old(timezoneSelector)
    {
      localeSelector := Some(f);
      r := f;
    }

    /** `timezoneselector(f)`: installs `f` in the timezone slot and hands it back. */
    method TimezoneSelector(f: Selector) returns (r: Selector)
      modifies this`timezoneSelector
      ensures timezoneSelector == Some(f) && r == f
      ensures localeSelector == old(localeSelector)
    {
      timezoneSelector := Some(f);
      r := f;
    }

    /** `load_locale(locale)`: the memoised parse. */
    method LoadLocale(state: BabelState, locale: string, parse: LocaleParser) returns (r: Result<Locale, Error>)
      modifies state`localeCache, state`parseCalls
      ensures r == CachedParse(old(state.localeCache), locale, parse)
      ensures Loaded(state, locale, parse)
    {
      if locale in state.localeCache {
        r := Success(state.localeCache[locale]);
      } else {
        state.parseCalls := state.parseCalls + [locale];
        var parsed := parse(locale);
        if parsed.Some? {
          state.localeCache := state.localeCache[locale := parsed.value];
          r := Success(parsed.value);
        } else {
          r := Failure(UnknownLocale(locale));
        }
      }
    }

    /** `default_locale`: `load_locale` of the configured default. */
    method DefaultLocale(state: BabelState, parse: LocaleParser) returns (r: Result<Locale, Error>)
      modifies state`localeCache, state`parseCalls
      ensures match ConfigText(state.app.config, "BABEL_DEFAULT_LOCALE")
              case Success(tag) => r == CachedParse(old(state.localeCache), tag, parse) && Loaded(state, tag, parse)
              case Failure(e) =>
                r == Failure(e) && state.localeCache == old(state.localeCache) && state.parseCalls == old(state.parseCalls)
    {
      var tag := ConfigText(state.app.config, "BABEL_DEFAULT_LOCALE");
      if tag.Failure? {
        r := Failure(tag.error);
      } else {
        r := LoadLocale(state, tag.value, parse);
      }
    }

    /** `default_timezone`: `ZoneInfo` of the configured default; nothing is cached. */
    method DefaultTimezone(state: BabelState, zones: ZoneLoader) returns (r: Result<Timezone, Error>)
      ensures match ConfigText(state.app.config, "BABEL_DEFAULT_TIMEZONE")
              case Success(name) => r == (if zones(name).Some? then Success(zones(name).value) else Failure(UnknownTimezone(name)))
              case Failure(e) => r == Failure(e)
    {
      var name := ConfigText(state.app.config, "BABEL_DEFAULT_TIMEZONE");
      if name.Failure? {
        r := Failure(name.error);
      } else {
        var zone := zones(name.value);
        r := if zone.Some? then Success(zone.value) else Failure(UnknownTimezone(name.value));
      }
    }

    /** `list_translations()`, over the directory tree at the application's
        root path. The loop scans `translations/` in listing order and
        parses every folder whose `LC_MESSAGES` directory holds a compiled
        catalog; when no folder qualifies the answer is the default locale
        alone. The catalog test is the corrected one (see `CatalogFolders`
        and `QualifyingFolders`). */
    method ListTranslations(state: BabelState, root: Node, parse: LocaleParser) returns (r: Result<seq<Locale>, Error>)
      modifies state`localeCache, state`parseCalls
      ensures TranslationsListing(root).None? ==>
                r == Success([]) && state.localeCache == old(state.localeCache) && state.parseCalls == old(state.parseCalls)
      ensures TranslationsListing(root).Some? && ParseAll(CatalogFolders(TranslationsListing(root).value), parse) != Success([]) ==>
                r == ParseAll(CatalogFolders(TranslationsListing(root).value), parse)
                && state.localeCache == old(state.localeCache) && state.parseCalls == old(state.parseCalls)
      ensures TranslationsListing(root).Some? && ParseAll(CatalogFolders(TranslationsListing(root).value), parse) == Success([]) ==>
                match ConfigText(state.app.config, "BABEL_DEFAULT_LOCALE")
                case Success(tag) =>
                  r == AsList(CachedParse(old(state.localeCache), tag, parse)) && Loaded(state, tag, parse)
                case Failure(e) =>
                  r == Failure(e) && state.localeCache == old(state.localeCache) && state.parseCalls == old(state.parseCalls)
    {
      var listing := TranslationsListing(root);
      if listing.None? {
        return Success([]);
      }
      var entries := listing.value;
      var result: seq<Locale> := [];
      var i := 0;
      while i < |entries|
        invariant 0 <= i <= |entries|
        invariant ParseAll(CatalogFolders(entries[..i]), parse) == Success(result)
        invariant state.localeCache == old(state.localeCache) && state.parseCalls == old(state.parseCalls)
      {
        var entry := entries[i];
        ScanStep(entries, i);
        if HasMessagesDir(entry) && HasCatalog(entry) {
          var locale := parse(entry.name);
          ParseAllSingle(entry.name, parse);
          ParseAllAppend(CatalogFolders(entries[..i]), [entry.name], parse);
          if locale.None? {
            ParseAllFirstFailure(CatalogFolders(entries[..i + 1]), CatalogFolders(entries[i + 1..]), parse);
            return Failure(UnknownLocale(entry.name));
          }
          result := result + [locale.value];
        } else {
          assert CatalogFolders(entries[..i]) + [] == CatalogFolders(entries[..i]);
        }
        i := i + 1;
      }
      assert entries[..i] == entries;
      if result == [] {
        var d := DefaultLocale(state, parse);
        // `Locale.parse` hands a `Locale` object back unchanged.
        r := AsList(d);
      } else {
        r := Success(result);
      }
    }
  }

  /** The one-element list of a located object, or the error. */
  function AsList(d: Result<Locale, Error>): (r: Result<seq<Locale>, Error>)
    ensures r.Success? <==> d.Success?
    ensures r.Success? ==> r.value == [d.value]
    ensures r.Failure? ==> r.error == d.error
  {
    if d.Success? then Success([d.value]) else Failure(d.error)
  }

  /** A directory tree: a file, or a directory listing its entries in the
      order the operating system returns them. */
  datatype Node = File | Dir(entries: seq<Entry>)
  datatype Entry = Entry(name: string, node: Node)

  /** The node `name` names in a listing. */
  function Child(entries: seq<Entry>, name: string): (r: Option<Node>)
    ensures r.Some? ==> exists e :: e in entries && e.name == name && e.node == r.value
    ensures r.None? ==> forall e :: e in entries ==> e.name != name
  {
    if entries == [] then None
    else if entries[0].name == name then Some(entries[0].node)
    else Child(entries[1..], name)
  }

  /** The listing of `<root>/translations`, when that is a directory. */
  function TranslationsListing(root: Node): Option<seq<Entry>> {
    if root.Dir? then
      match Child(root.entries, "translations")
      case Some(Dir(entries)) => Some(entries)
      case _ => None
    else None
  }

  /** The `LC_MESSAGES` directory of a folder, when there is one. */
  function MessagesDir(e: Entry): Option<seq<Entry>> {
    if e.node.Dir? then
      match Child(e.node.entries, "LC_MESSAGES")
      case Some(Dir(files)) => Some(files)
      case _ => None
    else None
  }

  /** The test the loop applies: `<folder>/LC_MESSAGES` is a directory. */
  predicate HasMessagesDir(e: Entry) {
    MessagesDir(e).Some?
  }

  /** The test the loop was evidently meant to apply as well: that
      directory holds at least one compiled catalog. */
  predicate HasCatalog(e: Entry) {
    MessagesDir(e).Some? && exists f :: f in MessagesDir(e).value && EndsWithMo(f.name)
  }

  predicate EndsWithMo(name: string) {
    |name| >= 3 && name[|name| - 3..] == ".mo"
  }

  /** The names of the folders the loop accepts, in listing order. */
  function QualifyingFolders(listing: seq<Entry>): (r: seq<string>)
    ensures |r| <= |listing|
    ensures forall n :: n in r <==> exists e :: e in listing && HasMessagesDir(e) && e.name == n
  {
    if listing == [] then []
    else
      var rest := QualifyingFolders(listing[1..]);
      assert forall e :: e in listing <==> e == listing[0] || e in listing[1..];
      if HasMessagesDir(listing[0]) then [listing[0].name] + rest else rest
  }

  /** The names of the folders that hold a compiled catalog, in listing order. */
  function CatalogFolders(listing: seq<Entry>): (r: seq<string>)
    ensures |r| <= |listing|
    ensures forall n :: n in r <==> exists e :: e in listing && HasCatalog(e) && e.name == n
  {
    if listing == [] then []
    else
      var rest := CatalogFolders(listing[1..]);
      assert forall e :: e in listing <==> e == listing[0] || e in listing[1..];
      if HasCatalog(listing[0]) then [listing[0].name] + rest else rest
  }

  /** The scan of a listing split in two is the scan of each part, in order. */
  lemma {:induction false} CatalogFoldersAppend(a: seq<Entry>, b: seq<Entry>)
    ensures CatalogFolders(a + b) == CatalogFolders(a) + CatalogFolders(b)
  {
    if a != [] {
      assert (a + b)[0] == a[0] && (a + b)[1..] == a[1..] + b;
      CatalogFoldersAppend(a[1..], b);
    } else {
      assert a + b == b;
    }
  }

  /** One more entry scanned: the folders accepted so far grow by that
      entry's name exactly when it holds a catalog. */
  lemma ScanStep(entries: seq<Entry>, i: nat)
    requires i < |entries|
    ensures CatalogFolders(entries[..i + 1]) ==
            CatalogFolders(entries[..i]) + (if HasCatalog(entries[i]) then [entries[i].name] else [])
    ensures CatalogFolders(entries) == CatalogFolders(entries[..i + 1]) + CatalogFolders(entries[i + 1..])
  {
    CatalogFoldersAppend(entries[..i], [entries[i]]);
    assert entries[..i + 1] == entries[..i] + [entries[i]];
    assert [entries[i]][1..] == [];
    CatalogFoldersAppend(entries[..i + 1], entries[i + 1..]);
    assert entries == entries[..i + 1] + entries[i + 1..];
  }

  /** Every folder listed with a catalog is also listed by the loop as
      written: the written test accepts more, never less. */
  lemma {:induction false} CatalogFoldersAreQualifying(listing: seq<Entry>)
    ensures forall n :: n in CatalogFolders(listing) ==> n in QualifyingFolders(listing)
  {
  }

  /** A folder whose `LC_MESSAGES` directory is empty is accepted by the
      loop as written, though it holds no catalog. */
  lemma EmptyMessagesDirIsListed()
    ensures var listing := [Entry("fr", Dir([Entry("LC_MESSAGES", Dir([]))]))];
            QualifyingFolders(listing) == ["fr"] && CatalogFolders(listing) == []
  {
    var listing := [Entry("fr", Dir([Entry("LC_MESSAGES", Dir([]))]))];
    assert !HasCatalog(listing[0]);
  }

  /** `[Locale.parse(n) for n in names]`, failing at the first name the
      parser rejects. */
  function ParseAll(names: seq<string>, parse: LocaleParser): (r: Result<seq<Locale>, Error>)
    ensures r.Success? <==> forall i :: 0 <= i < |names| ==> parse(names[i]).Some?
    ensures r.Success? ==> |r.value| == |names| && forall i :: 0 <= i < |names| ==> r.value[i] == parse(names[i]).value
    ensures r.Failure? ==> exists i :: 0 <= i < |names| && parse(names[i]).None? && r.error == UnknownLocale(names[i])
  {
    if names == [] then Success([])
    else
      match ParseLocale(names[0], parse)
      case Failure(e) => Failure(e)
      case Success(l) =>
        match ParseAll(names[1..], parse)
        case Success(ls) => Success([l] + ls)
        case Failure(e) => Failure(e)
  }

  /** A single name parses to its one locale, or fails with it. */
  lemma ParseAllSingle(name: string, parse: LocaleParser)
    ensures ParseAll([name], parse) == AsList(ParseLocale(name, parse))
  {
    assert [name][0] == name && [name][1..] == [];
    assert ParseAll([], parse) == Success([]);
    if parse(name).Some? {
      assert [parse(name).value] + [] == [parse(name).value];
    }
  }

  lemma {:induction false} ParseAllAppend(a: seq<string>, b: seq<string>, parse: LocaleParser)
    ensures ParseAll(a + b, parse) ==
            match ParseAll(a, parse)
            case Failure(e) => Failure(e)
            case Success(x) =>
              match ParseAll(b, parse)
              case Success(y) => Success(x + y)
              case Failure(e) => Failure(e)
  {
    if a != [] {
      assert (a + b)[0] == a[0] && (a + b)[1..] == a[1..] + b;
      ParseAllAppend(a[1..], b, parse);
      var head, rest, tail := ParseLocale(a[0], parse), ParseAll(a[1..], parse), ParseAll(b, parse);
      if head.Success? && rest.Success? && tail.Success? {
        assert [head.value] + rest.value + tail.value == [head.value] + (rest.value + tail.value);
      }
    } else {
      assert a + b == b;
      if ParseAll(b, parse).Success? {
        assert [] + ParseAll(b, parse).value == ParseAll(b, parse).value;
      }
    }
  }

  /** The scan stops at the first folder the parser rejects. */
  lemma ParseAllFirstFailure(a: seq<string>, b: seq<string>, parse: LocaleParser)
    requires ParseAll(a, parse).Failure?
    ensures ParseAll(a + b, parse) == ParseAll(a, parse)
  {
    ParseAllAppend(a, b, parse);
  }

  /** `date_formats[key]`, or the `KeyError` of a missing key. */
  function Get(table: map<DateFormatKey, DateFormat>, key: DateFormatKey): (r: Result<DateFormat, Error>)
    ensures r.Success? <==> key in table
    ensures r.Success? ==> r.value == table[key]
  {
    if key in table then Success(table[key]) else Failure(KeyError(key.Name()))
  }

  /** The format a date formatting call uses for `category`. Without an
      explicit `format`, the category's entry is read; when the format is
      then a style name, the entry `<category>.<style>` is read and, if it
      holds a pattern, that pattern replaces the style name. */
  function LookupFormat(table: map<DateFormatKey, DateFormat>, category: Category, format: DateFormat): (r: Result<DateFormat, Error>)
    ensures format.Some? && StyleOf(format.value).None? ==> r == Success(format)
    ensures format.None? && CategoryKey(category) !in table ==> r == Failure(KeyError(CategoryKey(category).Name()))
    ensures r.Failure? ==> exists k :: k !in table && r.error == KeyError(k.Name())
    ensures r.Success? && format.None? ==> CategoryKey(category) in table
  {
    var chosen :- if format.Some? then Success(format) else Get(table, CategoryKey(category));
    if chosen.Some? && StyleOf(chosen.value).Some? then
      var sub :- Get(table, StyleKey(category, StyleOf(chosen.value).value));
      Success(if sub.Some? then sub else chosen)
    else
      Success(chosen)
  }

  /** The two documented steps: the category names a style; the style's
      sub-key, if it holds a pattern, wins, and otherwise the style stays. */
  lemma {:induction false} TwoLevelLookup(table: map<DateFormatKey, DateFormat>, category: Category, style: Style)
    requires CategoryKey(category) in table && table[CategoryKey(category)] == Some(style.Name())
    requires StyleKey(category, style) in table
    ensures LookupFormat(table, category, None) ==
            Success(if table[StyleKey(category, style)].Some? then table[StyleKey(category, style)] else Some(style.Name()))
  {
    StyleNameRoundTrip(style);
  }

  /** A value that is not a style name is used as the pattern itself. */
  lemma PatternIsUsedAsIs(table: map<DateFormatKey, DateFormat>, category: Category, pattern: string)
    requires StyleOf(pattern).None?
    ensures LookupFormat(table, category, Some(pattern)) == Success(Some(pattern))
    ensures CategoryKey(category) in table && table[CategoryKey(category)] == Some(pattern) ==>
            LookupFormat(table, category, None) == Success(Some(pattern))
  {
  }

  /** A table with every key never raises. */
  lemma {:induction false} CompleteTableNeverFails(table: map<DateFormatKey, DateFormat>, category: Category, format: DateFormat)
    requires forall k: DateFormatKey :: k in table
    ensures LookupFormat(table, category, format).Success?
  {
    if format.None? {
      assert CategoryKey(category) in table;
    }
    var chosen := if format.Some? then format else table[CategoryKey(category)];
    if chosen.Some? && StyleOf(chosen.value).Some? {
      assert StyleKey(category, StyleOf(chosen.value).value) in table;
    }
  }

  /** With the default table every category resolves to the medium preset,
      and an explicit style name is kept, leaving the pattern to the locale. */
  lemma {:induction false} DefaultLookup(category: Category, style: Style)
    ensures LookupFormat(DEFAULT_DATE_FORMATS, category, None) == Success(Some("medium"))
    ensures LookupFormat(DEFAULT_DATE_FORMATS, category, Some(style.Name())) == Success(Some(style.Name()))
  {
    DefaultTableValues();
    StyleNameRoundTrip(Medium);
    StyleNameRoundTrip(style);
  }

  /** Setting `datetime` to `long` and `datetime.long` to a pattern makes
      that pattern the datetime format, and leaves dates and times alone. */
  lemma {:induction false} OverriddenDatetimeFormat(pattern: string)
    ensures var table := DEFAULT_DATE_FORMATS[CategoryKey(DateTime) := Some("long")][StyleKey(DateTime, Long) := Some(pattern)];
            && LookupFormat(table, DateTime, None) == Success(Some(pattern))
            && LookupFormat(table, Date, None) == Success(Some("medium"))
            && LookupFormat(table, Time, None) == Success(Some("medium"))
  {
    DefaultTableValues();
    StyleNameRoundTrip(Medium);
    StyleNameRoundTrip(Long);
  }

  /** `Babel(app)`, then the two writes to `b.date_formats`, then the lookup
      a datetime formatting call makes. */
  method CustomFormats(pattern: string) returns (format: Result<DateFormat, Error>)
    ensures format == Success(Some(pattern))
  {
    var app := new App(map["BABEL_DEFAULT_LOCALE" := Text("en_US"), "BABEL_DEFAULT_TIMEZONE" := Text("Pacific/Johnston")]);
    var b := new Babel(app, DEFAULT_LOCALE, DEFAULT_TIMEZONE, None, true, None);
    assert app.config["BABEL_DEFAULT_LOCALE"] == Text("en_US");
    var table := b.dateFormats.value;
    table.Set(CategoryKey(DateTime), Some("long"));
    table.Set(StyleKey(DateTime, Long), Some(pattern));
    OverriddenDatetimeFormat(pattern);
    format := LookupFormat(table.entries, DateTime, None);
  }

  /** Two reads of the default locale parse it once and cache one entry. */
  method DefaultLocaleTwice(tag: string, parse: LocaleParser) returns (first: Result<Locale, Error>, second: Result<Locale, Error>, cached: nat, ghost calls: seq<string>)
    requires parse(tag).Some?
    ensures first == second == Success(parse(tag).value)
    ensures cached == 1
    ensures calls == [tag]
  {
    var app := new App(map[]);
    var b := new Babel(app, tag, DEFAULT_TIMEZONE, None, true, None);
    var state := StateOf(app).value;
    assert state.app == app && state.localeCache == map[] && state.parseCalls == [];
    assert ConfigText(app.config, "BABEL_DEFAULT_LOCALE") == Success(tag);
    first := b.DefaultLocale(state, parse);
    assert state.localeCache == map[tag := parse(tag).value];
    second := b.DefaultLocale(state, parse);
    assert state.parseCalls == [tag];
    calls := state.parseCalls;
    assert state.localeCache.Keys == {tag};
    cached := |state.localeCache.Keys|;
  }

  /** An application root holding `translations/de/LC_MESSAGES/messages.mo`. */
  function GermanTree(): Node {
    Dir([Entry("translations", Dir([Entry("de", Dir([Entry("LC_MESSAGES", Dir([Entry("messages.mo", File)]))]))]))])
  }

  /** The scan of that tree finds `de` and nothing else. */
  lemma GermanTreeScan(parse: LocaleParser)
    ensures TranslationsListing(GermanTree()).Some?
    ensures ParseAll(CatalogFolders(TranslationsListing(GermanTree()).value), parse) == AsList(ParseLocale("de", parse))
  {
    var de := Entry("de", Dir([Entry("LC_MESSAGES", Dir([Entry("messages.mo", File)]))]));
    assert TranslationsListing(GermanTree()) == Some([de]);
    assert HasCatalog(de) by {
      assert MessagesDir(de).value[0].name == "messages.mo";
    }
    assert CatalogFolders([de]) == ["de"] by {
      assert [de][1..] == [];
    }
    ParseAllSingle("de", parse);
  }

  /** `list_translations` over that tree. */
  method ListOneTranslation(parse: LocaleParser) returns (r: Result<seq<Locale>, Error>)
    requires parse("de").Some?
    ensures r == Success([parse("de").value])
  {
    var app := new App(map[]);
    var b := new Babel(app, "de_DE", DEFAULT_TIMEZONE, None, true, None);
    var state := StateOf(app).value;
    GermanTreeScan(parse);
    r := b.ListTranslations(state, GermanTree(), parse);
  }
}
