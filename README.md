# flask-babelplus in Dafny

This project models the core of flask-babelplus, the Flask extension that wires the Babel locale library into an application. It covers three parts.

- **The extension controller and its per-application state** (module `Core`, file `core.dfy`). `Babel` and `_BabelState` are classes, with the application's `config` and `extensions` dictionaries as fields of an `App` object.
  - `init_app` fills in the four `BABEL_*` settings that are absent, installs a fresh state record under `extensions["babel"]` and chooses the date-format table. It keeps the caller's table object, or makes a fresh copy of the defaults.
  - The two selector registrations are modelled.
  - `load_locale` memoises the parser in the state record's cache, updating it in place. `default_locale` and `default_timezone` read the configured defaults.
  - `list_translations` scans the `translations` directory in listing order and falls back to the default locale.
  - The two-level date-format lookup documented in `init_app` is modelled on the format table.
- **The lazy string** (module `SpeakLater`, file `speaklater.dfy`). A `LazyString` is a resolver plus its captured arguments. The resolver reads an ambient context: the active request and its locale.
  - Every operation resolves the text again and applies Python's `str` operation to it.
  - The `str` behaviour those operations rely on is spelled out in module `PyStrings` (file `pystrings.dfy`): negative indices, clamped slices, substring membership, repetition, code-point ordering and iteration.
- **The constants** (module `Constants`, file `constants.dfy`): the default locale and timezone, the fifteen date-format keys and the default date-format table.

### Inputs

The locale library and the operating system are inputs:
- `Locale.parse` is a function `string -> Option<Locale>`. `None` stands for the exception it raises.
- `ZoneInfo` is a function `string -> Option<Timezone>`.
- The application's root directory is a `Node` tree.
- The state record that `get_state()` would find through the current application context is passed explicitly.
- A ghost log `parseCalls` on the state record counts the parser calls that `load_locale` makes, so "parses exactly once" can be stated.

## Model

| member | source | states |
|---|---|---|
| Constants.ParseKey | flask_babelplus/constants.py:20-36 | a name parses exactly when some key is spelled so, and the key found is one of the fifteen listed keys with that spelling |
| Constants.StyleOf | flask_babelplus/constants.py:17 | a name is a style exactly when it is one of `short`, `medium`, `long`, `full`; the style found is the one so spelled |
| Constants.StyleNameRoundTrip | flask_babelplus/constants.py:17 | reading a style's name back gives the style |
| Constants.KeyNameInjective | flask_babelplus/constants.py:20-36 | no two keys share a spelling |
| Constants.ParseKeyRoundTrip | flask_babelplus/constants.py:20-36 | parsing a key's name gives that key back |
| Constants.AllKeysListed | flask_babelplus/constants.py:20-36 | every key of the key type appears in the list of fifteen |
| Constants.DefaultTableKeys | flask_babelplus/constants.py:40-58 | the default table has exactly the fifteen listed keys, every key of the key type among them |
| Constants.DefaultValue | flask_babelplus/constants.py:41-57 | each key is in the default table; a category key maps to `medium`, a style sub-key to `None` |
| Constants.DefaultTableValues | flask_babelplus/constants.py:42-56 | every category maps to `medium` and every `<category>.<style>` sub-key maps to `None` |
| PyStrings.Index | flask_babelplus/speaklater.py:50-51 | `s[i]` succeeds exactly for `-len(s) <= i < len(s)`, and a negative index counts from the end |
| PyStrings.IndexFromEnd | flask_babelplus/speaklater.py:50-51 | `s[k - len(s)] == s[k]` for every in-range `k` |
| PyStrings.SliceBound | flask_babelplus/speaklater.py:50-51 | a missing bound takes its default; a negative bound counts from the end; the result is clamped to `0 .. len(s)`, so a bound past either end goes to that end |
| PyStrings.Slice | flask_babelplus/speaklater.py:50-51 | a slice is never longer than the string |
| PyStrings.SliceWhole | flask_babelplus/speaklater.py:50-51 | `s[:] == s` |
| PyStrings.SliceSplit | flask_babelplus/speaklater.py:50-51 | `s[:k] + s[k:] == s` for every integer `k` |
| PyStrings.Contains | flask_babelplus/speaklater.py:56-57 | `needle in hay` exactly when the needle occurs at some position of the hay |
| PyStrings.Repeat | flask_babelplus/speaklater.py:65-69 | `s * n` has length `n * len(s)`, and is empty when `n <= 0` |
| PyStrings.RepeatAt | flask_babelplus/speaklater.py:65-69 | character `q * len(s) + j` of `s * n` is `s[j]` |
| PyStrings.LessIrreflexive | flask_babelplus/speaklater.py:71-72 | no string sorts before itself |
| PyStrings.LessTransitive | flask_babelplus/speaklater.py:71-89 | string order is transitive |
| PyStrings.LessTrichotomy | flask_babelplus/speaklater.py:71-89 | exactly one of `a < b`, `a == b`, `b < a` holds |
| PyStrings.PrefixIsLess | flask_babelplus/speaklater.py:71-72 | a string sorts before each proper extension of itself |
| PyStrings.Chars | flask_babelplus/speaklater.py:53-54 | iteration yields one one-character string per character, in order |
| PyStrings.JoinChars | flask_babelplus/speaklater.py:53-54 | joining what iteration yields gives the string back |
| SpeakLater.Repr | flask_babelplus/speaklater.py:39-41 | `repr` is the resolved text between `l'` and `'` |
| SpeakLater.ReprRoundTrip | flask_babelplus/speaklater.py:39-41 | the resolved text can be read back from the `repr` |
| SpeakLater.Len | flask_babelplus/speaklater.py:47-48 | `len(ls)` is the length of the resolved text |
| SpeakLater.GetItem | flask_babelplus/speaklater.py:50-51 | indexing and slicing act on the resolved text, with Python's range rule for indices |
| SpeakLater.Iter | flask_babelplus/speaklater.py:53-54 | iteration yields the characters of the resolved text, one one-character string each, in order, and they join back to that text |
| SpeakLater.Contains | flask_babelplus/speaklater.py:56-57 | `item in ls` exactly when `item` occurs in the resolved text |
| SpeakLater.Add | flask_babelplus/speaklater.py:59-60 | `ls + o` is the resolved text followed by `o` |
| SpeakLater.RAdd | flask_babelplus/speaklater.py:62-63 | `o + ls` is `o` followed by the resolved text |
| SpeakLater.Mul | flask_babelplus/speaklater.py:65-66 | `ls * n` is the resolved text repeated `n` times, empty for `n <= 0` |
| SpeakLater.RMul | flask_babelplus/speaklater.py:68-69 | `n * ls` is the resolved text repeated `n` times, the same as `ls * n` |
| SpeakLater.MulCopies | flask_babelplus/speaklater.py:65-69 | each copy in `ls * n` is the resolved text |
| SpeakLater.ComparisonsAgree | flask_babelplus/speaklater.py:71-89 | the six comparison predicates `Lt`, `Le`, `Eq`, `Ne`, `Gt`, `Ge` compare the resolved text with the other string, and they are those of one total order: `==`/`!=`, `<=`/`>` and `>=`/`<` are complements, and exactly one of `<`, `==`, `>` holds |
| SpeakLater.Html | flask_babelplus/speaklater.py:91-92 | `__html__` is the resolved text |
| SpeakLater.Hash | flask_babelplus/speaklater.py:94-96 | `hash(ls)` is the string hash of the resolved text |
| SpeakLater.EqualTextEqualHash | flask_babelplus/speaklater.py:94-96 | lazy strings that compare equal hash equally |
| SpeakLater.Mod | flask_babelplus/speaklater.py:98-99 | `ls % o` is the resolved text formatted with `o`, or the `TypeError` `%` raises when the arguments do not fit |
| SpeakLater.RMod | flask_babelplus/speaklater.py:101-102 | the method call `ls.__rmod__(o)` is the concatenation `o + ls`, with no formatting |
| SpeakLater.GetAttr | flask_babelplus/speaklater.py:31-37 | `__setstate__` always fails; any other name succeeds exactly when the resolved text has that attribute, and yields it |
| SpeakLater.SameTextSameBehaviour | flask_babelplus/speaklater.py:43-45 | two lazy strings that resolve to the same text (`Str`, `__str__`) give equal results under every operation modelled: `len`, `repr`, `__html__`, iteration, indexing, `in`, `+` both ways, `*` both ways, all six comparisons, `hash`, `%`, `__rmod__` and attribute lookup |
| SpeakLater.ResolvedAtEachUse | tests/tests.py:169-177 | `Str`, the model of `__str__`, is evaluated at each use: one lazy string reads `Ja` under a German request and `Yes` under an English one |
| Core.FormatTable.Set | tests/tests.py:67-68 | a write changes that one entry of the table |
| Core.BabelState.constructor | flask_babelplus/core.py:217-222 | a state record holds its controller, application and domain, and starts with an empty cache |
| Core.SetDefault | flask_babelplus/core.py:100 | `setdefault` adds the key; it writes the value only when the key was absent and keeps every existing entry |
| Core.BabelConfigDefaults | flask_babelplus/core.py:100-103 | the four settings are present afterwards; each absent one gets its argument; existing entries and all other keys are unchanged |
| Core.BabelConfigDefaultsIdempotent | flask_babelplus/core.py:100-103 | a second round of defaults, with any arguments, changes nothing |
| Core.FreshAppDefaults | flask_babelplus/constants.py:38-39 | with the default arguments, an unconfigured application gets `en`, `UTC`, Jinja support on, and the domain |
| Core.Babel.constructor | flask_babelplus/core.py:47-75 | both selector slots start empty; with an application the effect is exactly that of `init_app`; without one no table is chosen |
| Core.Babel.InitApp | flask_babelplus/core.py:77-123 | settings as `BabelConfigDefaults` says; a fresh state record for this controller and application under `"babel"`, with an empty cache and the given domain or a fresh one; the caller's table object, or a fresh table equal to the defaults |
| Core.Babel.LocaleSelector | flask_babelplus/core.py:144-153 | the locale slot holds `f`, the timezone slot is unchanged, and `f` is returned |
| Core.Babel.TimezoneSelector | flask_babelplus/core.py:155-164 | the timezone slot holds `f`, the locale slot is unchanged, and `f` is returned |
| Core.ParseLocale | flask_babelplus/core.py:213 | parsing succeeds exactly when the parser knows the tag, else fails with that tag |
| Core.CachedParse | flask_babelplus/core.py:206-214 | a hit returns the cached object; a miss returns a fresh parse |
| Core.CacheAfter | flask_babelplus/core.py:206-214 | the tag is cached afterwards exactly when loading it succeeded, with the returned object; no other key is added, removed or changed |
| Core.MemoisedParseAgrees | flask_babelplus/core.py:206-214 | over a cache that holds only parser results, the memoised parse returns what a plain parse returns, and the cache keeps that property |
| Core.SecondLoadHits | flask_babelplus/core.py:206-214 | loading a tag again returns the same result and leaves the cache as it was |
| Core.CacheGrowsByAtMostOne | flask_babelplus/core.py:190-214 | a load adds at most one cache entry, and only under the tag loaded |
| Core.Babel.LoadLocale | flask_babelplus/core.py:206-214 | returns `CachedParse` of the old cache; the cache becomes `CacheAfter`; the parser is called once on a miss and not at all on a hit |
| Core.ConfigText | flask_babelplus/core.py:196 | reading a setting fails with `KeyError` when it is absent and with a type error when it is not a string |
| Core.Babel.DefaultLocale | flask_babelplus/core.py:190-196 | `load_locale` of the configured default locale; a missing setting propagates its error and leaves the cache alone |
| Core.Babel.DefaultTimezone | flask_babelplus/core.py:198-204 | the zone the loader makes of the configured default timezone, or its error; no state changes |
| Core.Babel.ListTranslations | flask_babelplus/core.py:166-188 | `[]` without a `translations` directory; else the parsed names of the folders holding a catalog, in listing order, stopping at the first parse error; when none qualifies, the default locale alone through the cache |
| Core.AsList | flask_babelplus/core.py:186-187 | the fallback is the one-element list of the default locale, or its error |
| Core.Child | flask_babelplus/core.py:176-182 | a path step finds an entry of that name, or there is none |
| Core.QualifyingFolders | flask_babelplus/core.py:180-185 | as written: a folder is accepted exactly when its `LC_MESSAGES` is a directory |
| Core.CatalogFolders | flask_babelplus/core.py:180-185 | as intended: a folder is accepted exactly when its `LC_MESSAGES` directory holds a `.mo` file |
| Core.CatalogFoldersAppend | flask_babelplus/core.py:180-185 | the scan of a split listing is the scan of each part, in order |
| Core.ScanStep | flask_babelplus/core.py:180-185 | one more folder scanned adds its name exactly when it holds a catalog |
| Core.CatalogFoldersAreQualifying | flask_babelplus/core.py:182-184 | the intended test accepts no folder that the written test rejects |
| Core.EmptyMessagesDirIsListed | flask_babelplus/core.py:184 | a folder with an empty `LC_MESSAGES` directory is accepted as written and rejected as intended |
| Core.ParseAll | flask_babelplus/core.py:180-185 | all names parse, in order, or the result is the error of a name the parser rejects |
| Core.ParseAllSingle | flask_babelplus/core.py:185 | one name parses to the one-element list, or to its error |
| Core.ParseAllAppend | flask_babelplus/core.py:180-185 | parsing a split list is parsing each part, and the first error wins |
| Core.ParseAllFirstFailure | flask_babelplus/core.py:180-185 | once a parse has failed, later folders do not change the result |
| Core.Get | flask_babelplus/core.py:114-118 | a table read succeeds exactly for a present key, and yields its value |
| Core.LookupFormat | flask_babelplus/core.py:109-119 | an explicit format that is not a style name is used as is; without one, a lookup succeeds only when the category entry exists, and a missing category key fails with its `KeyError`; every failure is the `KeyError` of a key absent from the table |
| Core.TwoLevelLookup | flask_babelplus/core.py:109-119 | the category's style selects the sub-key, whose pattern wins if set, and otherwise the style stays |
| Core.PatternIsUsedAsIs | flask_babelplus/core.py:109-119 | a format that is not a style name is used as the pattern itself |
| Core.CompleteTableNeverFails | flask_babelplus/core.py:109-119 | the lookup never fails on a table that has every key |
| Core.DefaultLookup | flask_babelplus/core.py:114-119 | with the default table every category resolves to `medium`, and an explicit style is kept |
| Core.OverriddenDatetimeFormat | tests/tests.py:67-72 | with `datetime = long` and `datetime.long = pattern` the datetime format is the pattern; dates and times stay `medium` |
| Core.CustomFormats | tests/tests.py:60-72 | writing through the controller's table changes the format a later datetime lookup uses |
| Core.DefaultLocaleTwice | flask_babelplus/core.py:190-214 | two reads of the default locale return the same object; the parser is called once, for the tag, and one cache entry remains |
| Core.GermanTreeScan | tests/tests.py:202-211 | the scan of `translations/de/LC_MESSAGES/messages.mo` finds `de` alone |
| Core.ListOneTranslation | tests/tests.py:202-211 | `list_translations` over that tree is the one locale `de` |

## Left out

- The Jinja integration (`flask_babelplus/core.py:125-142`) is left out. It registers template filters and gettext callables and has no state of its own. `BABEL_CONFIGURE_JINJA` is still written to the config.
- `Locale.parse` and `ZoneInfo` are parameters, and the model does not reason about their output. The exceptions they raise are the `None` of their results.
- `os.path.isdir` and `os.listdir` are replaced by a directory tree. The listing order is the order of its entries.
- `get_state()` is not modelled. The state record it would find is passed to each method, so a missing application context is not modelled.
- Translation lookup, `force_locale`, locale and timezone selection, and the formatting functions are not part of this model: `domain.py` and `utils.py` are not part of it.
- `Core.LookupFormat` follows the lookup steps documented at `flask_babelplus/core.py:109-119`. It is not checked against the implementation in `utils.py`.
- `Core.Babel.ListTranslations` applies the catalog test as evidently intended, not as written; see Findings. `Core.QualifyingFolders` records the test as written.
- `Core.Babel.ListTranslations`: `Locale.parse(self.default_locale)` receives a `Locale` and hands it back unchanged, so the fallback is the cached default locale itself.
- `Core.ConfigText`: a setting that is not a string is reported as a type error. The source would hand it to `Locale.parse` or `ZoneInfo`, and what they do with it is not modelled.
- `SpeakLater.Mod`, `SpeakLater.Hash` and `SpeakLater.GetAttr` take Python's `%` formatting, string hash and `str` attribute table as parameters. For `Mod` the formatting parameter answers `None` where `%` raises, and that becomes a `TypeError`; which argument lists `%` rejects is not modelled.
- SpeakLater.RMod models the method `__rmod__` itself. For `o % ls` with a string `o`, Python calls the string's own `%` first, which formats `o` with the lazy string as its argument and never reaches `__rmod__`; that path belongs to `str` and is not modelled.
- SpeakLater: the other operand of `+`, `*`, comparisons and `in` is always a string or an integer. The `TypeError` Python raises for other operand types, and any other type's reflected operators, are not modelled.
- `SpeakLater.GetItem` covers integer indices and step-1 slices. Slices with a step are not modelled.
- `SpeakLater.Str`: the resolver returns a string. The `str()` conversion of a resolver result of another type is not modelled.
- `SpeakLater.GetAttr` is `__getattr__`, which Python calls only for names the lazy string does not define itself. The attributes a `LazyString` defines are the functions of module `SpeakLater`.
- The separate positional and keyword arguments of the resolver are one captured value `args`.
- `_BabelState.__repr__` (`flask_babelplus/core.py:224-226`) is debugging output and is not modelled.

## Findings

| source | as written | input that shows it | evidently intended | confidence | as-written member | corrected member |
|---|---|---|---|---|---|---|
| flask_babelplus/core.py:184 | `if filter(lambda x: x.endswith(".mo"), os.listdir(locale_dir))` tests a `filter` object, which is always true in Python 3, so every folder with an `LC_MESSAGES` directory is listed | `translations/fr/LC_MESSAGES/` with no files: `fr` is listed although it has no catalog | list a folder only when its `LC_MESSAGES` directory holds at least one `.mo` file | not executed | Core.QualifyingFolders, Core.EmptyMessagesDirIsListed | Core.CatalogFolders, Core.Babel.ListTranslations |
