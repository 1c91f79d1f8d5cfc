/** The extension's constants: the default locale and timezone, and the default
    date-format table with its fifteen keys. */
module Constants {
  import opened Wrappers

  /** The three kinds of value the date formatting functions handle. */
  datatype Category = Time | Date | DateTime {
    function Name(): string {
      match this
      case Time => "time"
      case Date => "date"
      case DateTime => "datetime"
    }
  }

  /** The four named length presets of the locale library. */
  datatype Style = Short | Medium | Long | Full {
    function Name(): string {
      match this
      case Short => "short"
      case Medium => "medium"
      case Long => "long"
      case Full => "full"
    }
  }

  /** A key of the date-format table: a bare category (`"datetime"`) or a
      category refined by a style (`"datetime.long"`). */
  datatype DateFormatKey = CategoryKey(category: Category) | StyleKey(category: Category, style: Style) {
    /** The key as it is spelled in the table. */
    function Name(): string {
      match this
      case CategoryKey(c) => c.Name()
      case StyleKey(c, s) => c.Name() + "." + s.Name()
    }
  }

  /** A value of the table: a style name or a CLDR pattern, or `None`, which
      means "use the locale's own pattern". */
  type DateFormat = Option<string>

  const DEFAULT_LOCALE: string := "en"
  const DEFAULT_TIMEZONE: string := "UTC"

  /** Every date-format key, in the order the key type enumerates them. */
  const DATE_FORMAT_KEYS: seq<DateFormatKey> := [
    CategoryKey(Time), CategoryKey(Date), CategoryKey(DateTime),
    StyleKey(Time, Short), StyleKey(Time, Medium), StyleKey(Time, Full), StyleKey(Time, Long),
    StyleKey(Date, Short), StyleKey(Date, Medium), StyleKey(Date, Full), StyleKey(Date, Long),
    StyleKey(DateTime, Short), StyleKey(DateTime, Medium), StyleKey(DateTime, Full), StyleKey(DateTime, Long)
  ]

  const DEFAULT_DATE_FORMATS: map<DateFormatKey, DateFormat> := map[
    CategoryKey(Time) := Some("medium"),
    CategoryKey(Date) := Some("medium"),
    CategoryKey(DateTime) := Some("medium"),
    StyleKey(Time, Short) := None,
    StyleKey(Time, Medium) := None,
    StyleKey(Time, Full) := None,
    StyleKey(Time, Long) := None,
    StyleKey(Date, Short) := None,
    StyleKey(Date, Medium) := None,
    StyleKey(Date, Full) := None,
    StyleKey(Date, Long) := None,
    StyleKey(DateTime, Short) := None,
    StyleKey(DateTime, Medium) := None,
    StyleKey(DateTime, Full) := None,
    StyleKey(DateTime, Long) := None
  ]

  /** The key spelled `name`, if `name` is one of the fifteen keys. */
  function ParseKey(name: string): (r: Option<DateFormatKey>)
    ensures r.Some? ==> r.value.Name() == name && r.value in DATE_FORMAT_KEYS
    ensures r.None? <==> forall k: DateFormatKey :: k.Name() != name
  {
    var r := FindKey(DATE_FORMAT_KEYS, name);
    assert r.None? ==> forall k: DateFormatKey :: k.Name() != name by {
      forall k: DateFormatKey ensures k in DATE_FORMAT_KEYS {
        AllKeysListed(k);
      }
    }
    r
  }

  function FindKey(keys: seq<DateFormatKey>, name: string): (r: Option<DateFormatKey>)
    ensures r.Some? ==> r.value.Name() == name && r.value in keys
    ensures r.None? ==> forall k :: k in keys ==> k.Name() != name
  {
    if keys == [] then None
    else if keys[0].Name() == name then Some(keys[0])
    else FindKey(keys[1..], name)
  }

  /** The style a table value names, when it is one of the four preset names. */
  function StyleOf(name: string): (r: Option<Style>)
    ensures r.Some? ==> r.value.Name() == name
    ensures r.None? ==> forall s: Style :: s.Name() != name
  {
    if name == "short" then Some(Short)
    else if name == "medium" then Some(Medium)
    else if name == "long" then Some(Long)
    else if name == "full" then Some(Full)
    else None
  }

  /** Reading a style's name back gives the style. */
  lemma StyleNameRoundTrip(s: Style)
    ensures StyleOf(s.Name()) == Some(s)
  {
  }

  /** No two keys are spelled alike, so the datatype keys stand for the
      table's string keys one for one. */
  lemma KeyNameInjective(k1: DateFormatKey, k2: DateFormatKey)
    ensures k1.Name() == k2.Name() ==> k1 == k2
  {
    if k1.Name() == k2.Name() {
      match k1 {
        case CategoryKey(c1) =>
          match k2 {
            case CategoryKey(c2) =>
              assert c1.Name()[0] == c2.Name()[0] && |c1.Name()| == |c2.Name()|;
            case StyleKey(c2, s2) =>
          }
        case StyleKey(c1, s1) =>
          match k2 {
            case CategoryKey(c2) =>
            case StyleKey(c2, s2) =>
              StyleKeyNameInjective(c1, s1, c2, s2);
          }
      }
    }
  }

  lemma StyleKeyNameInjective(c1: Category, s1: Style, c2: Category, s2: Style)
    requires c1.Name() + "." + s1.Name() == c2.Name() + "." + s2.Name()
    ensures c1 == c2 && s1 == s2
  {
    var n1, n2 := c1.Name() + "." + s1.Name(), c2.Name() + "." + s2.Name();
    assert n1[0] == n2[0] && n1[4] == n2[4];
    var m := |c1.Name()| + 1;
    assert s1.Name() == n1[m..] == n2[m..] == s2.Name();
    assert s1.Name()[0] == s2.Name()[0] && |s1.Name()| == |s2.Name()|;
  }

  /** Parsing a key's name gives the key back. */
  lemma {:induction false} ParseKeyRoundTrip(k: DateFormatKey)
    ensures ParseKey(k.Name()) == Some(k)
  {
    var r := ParseKey(k.Name());
    AllKeysListed(k);
    assert r.Some?;
    KeyNameInjective(r.value, k);
  }

  lemma AllKeysListed(k: DateFormatKey)
    ensures k in DATE_FORMAT_KEYS
  {
    match k {
      case CategoryKey(c) =>
        match c {
          case Time => assert DATE_FORMAT_KEYS[0] == k;
          case Date => assert DATE_FORMAT_KEYS[1] == k;
          case DateTime => assert DATE_FORMAT_KEYS[2] == k;
        }
      case StyleKey(c, s) =>
        var base := match c { case Time => 3 case Date => 7 case DateTime => 11 };
        var offset := match s { case Short => 0 case Medium => 1 case Full => 2 case Long => 3 };
        assert DATE_FORMAT_KEYS[base + offset] == k;
    }
  }

  lemma {:induction false} DistinctCardinality(s: seq<DateFormatKey>)
    requires forall i, j :: 0 <= i < j < |s| ==> s[i] != s[j]
    ensures |set k | k in s| == |s|
  {
    if s != [] {
      DistinctCardinality(s[1..]);
      var rest := set k | k in s[1..];
      assert (set k | k in s) == rest + {s[0]};
      assert s[0] !in rest;
    }
  }

  /** The default table has exactly the fifteen keys of the key type. */
  lemma DefaultTableKeys()
    ensures forall k: DateFormatKey :: k in DEFAULT_DATE_FORMATS
    ensures DEFAULT_DATE_FORMATS.Keys == set k | k in DATE_FORMAT_KEYS
    ensures |DEFAULT_DATE_FORMATS| == |DATE_FORMAT_KEYS| == 15
  {
    forall k: DateFormatKey ensures k in DEFAULT_DATE_FORMATS {
      AllKeysListed(k);
    }
    assert DEFAULT_DATE_FORMATS.Keys == set k | k in DATE_FORMAT_KEYS;
    DistinctCardinality(DATE_FORMAT_KEYS);
  }

  /** One key of the default table: in it, with its documented value. */
  lemma DefaultValue(k: DateFormatKey)
    ensures k in DEFAULT_DATE_FORMATS
    ensures DEFAULT_DATE_FORMATS[k] == if k.CategoryKey? then Some(Medium.Name()) else None
  {
    match k {
      case CategoryKey(c) =>
        match c {
          case Time =>
          case Date =>
          case DateTime =>
        }
      case StyleKey(c, s) =>
        match c {
          case Time =>
            match s { case Short => case Medium => case Long => case Full => }
          case Date =>
            match s { case Short => case Medium => case Long => case Full => }
          case DateTime =>
            match s { case Short => case Medium => case Long => case Full => }
        }
    }
  }

  /** Each category defaults to the medium preset, and every style sub-key
      defers to the locale's own pattern. */
  lemma DefaultTableValues()
    ensures forall k: DateFormatKey :: k in DEFAULT_DATE_FORMATS
    ensures forall c: Category :: DEFAULT_DATE_FORMATS[CategoryKey(c)] == Some(Medium.Name())
    ensures forall c: Category, s: Style :: DEFAULT_DATE_FORMATS[StyleKey(c, s)] == None
  {
    forall k: DateFormatKey ensures k in DEFAULT_DATE_FORMATS {
      DefaultValue(k);
    }
    forall c: Category ensures DEFAULT_DATE_FORMATS[CategoryKey(c)] == Some(Medium.Name()) {
      DefaultValue(CategoryKey(c));
    }
    forall c: Category, s: Style ensures DEFAULT_DATE_FORMATS[StyleKey(c, s)] == None {
      DefaultValue(StyleKey(c, s));
    }
  }
}
