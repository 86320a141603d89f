/** The extension's configuration table (`self.config` of QrCodeExtension):
    its defaults, how user settings override them, and how two of the
    entries are then turned from strings into an integer and a boolean. */
module QrConfig {
  import opened Wrappers
  import opened PyStr

  /** A table value: the user supplies strings; after construction the pixel
      size holds an integer and the short-syntax flag a boolean. */
  datatype Setting = Text(text: string) | Number(number: int) | Flag(flag: bool)

  /** One table entry, `[value, description]`. */
  datatype ConfigEntry = ConfigEntry(value: Setting, description: string)

  type ConfigMap = map<string, ConfigEntry>

  const PixelSizeKey: string := "intPixelSize"
  const ShortSyntaxKey: string := "useShortSyntax"
  const BgColorKey: string := "bgColor"
  const FgColorKey: string := "fgColor"
  const EcLevelKey: string := "ecLevel"

  /** The strings that, lower-cased, switch the short syntax on. */
  const TruthyStrings: set<string> := {"true", "yes", "t", "y", "1"}

  /** The table as built before any user setting is applied. */
  function DefaultConfig(): (c: ConfigMap)
    ensures IsRaw(c)
    ensures c.Keys == {PixelSizeKey, ShortSyntaxKey, BgColorKey, FgColorKey, EcLevelKey}
  {
    map[
      PixelSizeKey := ConfigEntry(Text("2"), "Pixel Size of each dark and light bit"),
      ShortSyntaxKey := ConfigEntry(Text("true"), "Enable the use of the original short syntax ( '[-[data to encode]-]' )"),
      BgColorKey := ConfigEntry(Text("#FFFFFF"), "The color to use for background (\"light colored\") squares."),
      FgColorKey := ConfigEntry(Text("#000000"), "The color to use for foreground (\"dark colored\") squares."),
      EcLevelKey := ConfigEntry(Text("L"), "The error correcting level to use. One of L, M, H, or Q.")
    ]
  }

  /** Every option is present and still holds a string. */
  predicate IsRaw(c: ConfigMap) {
    && PixelSizeKey in c && c[PixelSizeKey].value.Text?
    && ShortSyntaxKey in c && c[ShortSyntaxKey].value.Text?
    && BgColorKey in c && c[BgColorKey].value.Text?
    && FgColorKey in c && c[FgColorKey].value.Text?
    && EcLevelKey in c && c[EcLevelKey].value.Text?
  }

  /** Every option is present with the type the patterns read it at. */
  predicate IsCoerced(c: ConfigMap) {
    && PixelSizeKey in c && c[PixelSizeKey].value.Number?
    && ShortSyntaxKey in c && c[ShortSyntaxKey].value.Flag?
    && BgColorKey in c && c[BgColorKey].value.Text?
    && FgColorKey in c && c[FgColorKey].value.Text?
    && EcLevelKey in c && c[EcLevelKey].value.Text?
  }

  /** The typed view of a coerced table. */
  datatype Config = Config(
    pixelSize: int,
    useShortSyntax: bool,
    bgColor: string,
    fgColor: string,
    ecLevel: string)

  function Settings(c: ConfigMap): Config
    requires IsCoerced(c)
  {
    Config(
      c[PixelSizeKey].value.number,
      c[ShortSyntaxKey].value.flag,
      c[BgColorKey].value.text,
      c[FgColorKey].value.text,
      c[EcLevelKey].value.text)
  }

  // --------------------------------------------------------- user settings

  /** The host's `setConfig(key, value)`, whose code is not part of this
      model; assumed to replace the value of an existing option, keep its
      description, and ignore names that are not options. */
  function SetConfigEntry(c: ConfigMap, key: string, value: string): (c': ConfigMap)
    ensures c'.Keys == c.Keys
    ensures key in c ==> c'[key] == ConfigEntry(Text(value), c[key].description)
    ensures forall k :: k in c && k != key ==> c'[k] == c[k]
  {
    if key in c then c[key := c[key].(value := Text(value))] else c
  }

  /** The table after the user's settings have been applied in order. */
  function Overridden(c: ConfigMap, overrides: seq<(string, string)>): (c': ConfigMap)
    ensures c'.Keys == c.Keys
    ensures IsRaw(c) ==> IsRaw(c')
    decreases |overrides|
  {
    if overrides == [] then c
    else
      var last := overrides[|overrides| - 1];
      SetConfigEntry(Overridden(c, overrides[..|overrides| - 1]), last.0, last.1)
  }

  /** The value the user gave `key` last, if any. */
  function LastOverride(overrides: seq<(string, string)>, key: string): Option<string>
    decreases |overrides|
  {
    if overrides == [] then None
    else if overrides[|overrides| - 1].0 == key then Some(overrides[|overrides| - 1].1)
    else LastOverride(overrides[..|overrides| - 1], key)
  }

  /** Applying the settings keeps the set of options, and each option ends
      with the value it was given last, or keeps its default. */
  lemma {:induction false} OverriddenEntries(c: ConfigMap, overrides: seq<(string, string)>)
    ensures Overridden(c, overrides).Keys == c.Keys
    ensures forall k :: k in c ==>
      Overridden(c, overrides)[k] ==
        match LastOverride(overrides, k)
        case None => c[k]
        case Some(v) => ConfigEntry(Text(v), c[k].description)
    decreases |overrides|
  {
    if overrides != [] {
      OverriddenEntries(c, overrides[..|overrides| - 1]);
    }
  }

  // -------------------------------------------------------------- coercion

  /** `s` is the lower-case word `w` with any of its letters capitalised. */
  predicate SpellsIgnoringCase(s: string, w: string)
    requires forall i :: 0 <= i < |w| ==> IsLowerLetter(w[i])
  {
    |s| == |w| && forall i :: 0 <= i < |s| ==> s[i] == w[i] || s[i] == UpperChar(w[i])
  }

  /** The short syntax is on when the lower-cased setting is a truthy word:
      exactly "1" and the spellings of true, yes, t and y in any letter case. */
  predicate IsTruthy(s: string): (b: bool)
    ensures b <==>
      s == "1" || SpellsIgnoringCase(s, "true") || SpellsIgnoringCase(s, "yes")
      || SpellsIgnoringCase(s, "t") || SpellsIgnoringCase(s, "y")
  {
    LowerMatchesWord(s, "true");
    LowerMatchesWord(s, "yes");
    LowerMatchesWord(s, "t");
    LowerMatchesWord(s, "y");
    assert Lower(s) == "1" <==> s == "1" by {
      if Lower(s) == "1" { assert s[0] == Lower(s)[0]; }
    }
    Lower(s) in TruthyStrings
  }

  /** `int()` of the pixel-size setting raised ValueError. */
  datatype ConfigError = BadPixelSetting(text: string)

  /** The two conversions at the end of construction: the pixel size through
      `int()`, the short-syntax flag through the truthy test. A pixel size
      that is not an integer fails before anything is written. */
  function Coerce(c: ConfigMap): (r: Result<ConfigMap, ConfigError>)
    requires IsRaw(c)
    ensures r.Success? <==> ParseInt(c[PixelSizeKey].value.text).Some?
    ensures r.Failure? ==> r.error == BadPixelSetting(c[PixelSizeKey].value.text)
    ensures r.Success? ==>
      && IsCoerced(r.value)
      && r.value.Keys == c.Keys
      && Settings(r.value) == Config(
           ParseInt(c[PixelSizeKey].value.text).value,
           IsTruthy(c[ShortSyntaxKey].value.text),
           c[BgColorKey].value.text,
           c[FgColorKey].value.text,
           c[EcLevelKey].value.text)
      && forall k :: k in c ==> r.value[k].description == c[k].description
  {
    var pixel := c[PixelSizeKey];
    var short := c[ShortSyntaxKey];
    match ParseInt(pixel.value.text)
    case None => Failure(BadPixelSetting(pixel.value.text))
    case Some(n) =>
      Success(c[PixelSizeKey := pixel.(value := Number(n))]
               [ShortSyntaxKey := short.(value := Flag(IsTruthy(short.value.text)))])
  }

  /** The settings an extension built from `overrides` ends with. */
  function Configure(overrides: seq<(string, string)>): (r: Result<Config, ConfigError>)
    ensures r.Success? <==> ParseInt(LastOverride(overrides, PixelSizeKey).GetOr("2")).Some?
  {
    var raw := Overridden(DefaultConfig(), overrides);
    OverriddenEntries(DefaultConfig(), overrides);
    match Coerce(raw)
    case Failure(e) => Failure(e)
    case Success(c) => Success(Settings(c))
  }

  /** What construction promises about each option: the pixel size is the
      integer parse of its last setting (or of "2"), and construction fails
      exactly when that is not an integer; the short syntax is on iff its
      last setting (or "true"), lower-cased, is a truthy word; the colours
      and the error-correction level are their last settings verbatim, or
      the defaults. */
  lemma ConfigureSettings(overrides: seq<(string, string)>)
    ensures var pixel := LastOverride(overrides, PixelSizeKey).GetOr("2");
      && (Configure(overrides).Success? <==> ParseInt(pixel).Some?)
      && (Configure(overrides).Failure? ==> Configure(overrides).error == BadPixelSetting(pixel))
      && (Configure(overrides).Success? ==>
            Configure(overrides).value == Config(
              ParseInt(pixel).value,
              IsTruthy(LastOverride(overrides, ShortSyntaxKey).GetOr("true")),
              LastOverride(overrides, BgColorKey).GetOr("#FFFFFF"),
              LastOverride(overrides, FgColorKey).GetOr("#000000"),
              LastOverride(overrides, EcLevelKey).GetOr("L")))
  {
    var raw := Overridden(DefaultConfig(), overrides);
    OverriddenEntries(DefaultConfig(), overrides);
    assert raw[PixelSizeKey].value.text == LastOverride(overrides, PixelSizeKey).GetOr("2");
    assert raw[ShortSyntaxKey].value.text == LastOverride(overrides, ShortSyntaxKey).GetOr("true");
    assert raw[BgColorKey].value.text == LastOverride(overrides, BgColorKey).GetOr("#FFFFFF");
    assert raw[FgColorKey].value.text == LastOverride(overrides, FgColorKey).GetOr("#000000");
    assert raw[EcLevelKey].value.text == LastOverride(overrides, EcLevelKey).GetOr("L");
  }

  /** Examples of the short-syntax test: the listed words in any letter
      case are accepted, other words are not (IsTruthy states the general
      rule). */
  lemma TruthyExamples()
    ensures IsTruthy("TRUE") && IsTruthy("Yes") && IsTruthy("t") && IsTruthy("Y") && IsTruthy("1")
    ensures !IsTruthy("false") && !IsTruthy("no") && !IsTruthy("") && !IsTruthy("on") && !IsTruthy("0")
  {
    assert Lower("TRUE") == "true";
    assert Lower("Yes") == "yes";
    assert Lower("Y") == "y";
    assert Lower("t") == "t";
    assert Lower("1") == "1";
    assert Lower("0") == "0";
    assert Lower("false") == "false";
    assert Lower("no") == "no";
    assert Lower("on") == "on";
  }
}
