/** QrCodeExtension: the object that owns the configuration table, fills it
    in from the user's settings, converts two of its entries, and registers
    the inline patterns with the markdown host. */
module QrExtension {
  import opened Wrappers
  import opened PyStr
  import opened QrConfig
  import opened QrPattern

  const DomainPatternName: string := "qrcode-domain"
  const ShortPatternName: string := "qrcode"

  class QrCodeExtension {
    /** `self.config`: option name to `[value, description]`. */
    var config: ConfigMap

    /** The first part of construction: the defaults table, then the user's
        settings applied one by one through `setConfig`. */
    constructor (configs: seq<(string, string)>)
      ensures config == Overridden(DefaultConfig(), configs)
    {
      config := DefaultConfig();
      new;
      var i := 0;
      while i < |configs|
        invariant 0 <= i <= |configs|
        invariant config == Overridden(DefaultConfig(), configs[..i])
      {
        var (key, value) := configs[i];
        assert configs[..i + 1][..i] == configs[..i];
        SetConfig(key, value);
        i := i + 1;
      }
      assert configs[..i] == configs;
    }

    /** `setConfig(key, value)`, with the semantics SetConfigEntry assumes. */
    method SetConfig(key: string, value: string)
      modifies this
      ensures config == SetConfigEntry(old(config), key, value)
    {
      if key in config {
        config := config[key := config[key].(value := Text(value))];
      }
    }

    /** The last part of construction: the pixel size through `int()`, then
        the short-syntax flag through the truthy test. When `int()` fails,
        the table is left as it was and the error is returned. */
    method CoerceConfig() returns (err: Option<ConfigError>)
      requires IsRaw(config)
      modifies this
      ensures Coerce(old(config)).Failure? ==>
        err == Some(Coerce(old(config)).error) && config == old(config)
      ensures Coerce(old(config)).Success? ==>
        err.None? && config == Coerce(old(config)).value
    {
      var text := config[PixelSizeKey].value.text;
      var n := ParseInt(text);
      if n.None? {
        return Some(BadPixelSetting(text));
      }
      config := config[PixelSizeKey := config[PixelSizeKey].(value := Number(n.value))];
      var short := config[ShortSyntaxKey];
      config := config[ShortSyntaxKey := short.(value := Flag(IsTruthy(short.value.text)))];
      err := None;
    }

    /** `extendMarkdown`: the domain pattern is always registered, first;
        the short pattern follows it exactly when the short syntax is on.
        Both patterns read the same configuration. The host's insertion
        point (before "reference") is not modelled. */
    method ExtendMarkdown() returns (patterns: seq<BasicQrCodePattern>)
      requires IsCoerced(config)
      ensures 1 <= |patterns| <= 2
      ensures patterns[0] == BasicQrCodePattern(DomainPatternName, Domain, DomainRegex, Settings(config))
      ensures (exists i :: 0 <= i < |patterns| && patterns[i].syntax == Short) <==> Settings(config).useShortSyntax
      ensures |patterns| == 2 ==> patterns[1] == BasicQrCodePattern(ShortPatternName, Short, ShortRegex, Settings(config))
      ensures forall i :: 0 <= i < |patterns| ==> patterns[i].pattern == Regex(patterns[i].syntax)
    {
      var settings := Settings(config);
      patterns := [BasicQrCodePattern(DomainPatternName, Domain, Regex(Domain), settings)];
      assert patterns[0].syntax != Short;
      if config[ShortSyntaxKey].value.flag {
        patterns := patterns + [BasicQrCodePattern(ShortPatternName, Short, Regex(Short), settings)];
        assert patterns[1].syntax == Short;
      }
    }
  }

  /** `QrCodeExtension(configs)` as a whole (the object `makeExtension`
      returns): it fails with the error of `int()` on the pixel size, and
      otherwise holds the configuration Configure describes. */
  method MakeExtension(configs: seq<(string, string)>) returns (r: Result<QrCodeExtension, ConfigError>)
    ensures r.Success? ==>
      && fresh(r.value)
      && IsCoerced(r.value.config)
      && Configure(configs) == Success(Settings(r.value.config))
    ensures r.Failure? ==> Configure(configs) == Failure(r.error)
  {
    var ext := new QrCodeExtension(configs);
    var err := ext.CoerceConfig();
    if err.Some? {
      return Failure(err.value);
    }
    r := Success(ext);
  }

  /** With no user settings the configuration is the documented default. */
  lemma DefaultSettings()
    ensures Configure([]) == Success(Config(2, true, "#FFFFFF", "#000000", "L"))
  {
    ConfigureSettings([]);
    assert IsTruthy("true") by { assert Lower("true") == "true"; }
    assert ParseInt("2") == Some(2) by { assert DigitsValue("2") == 2; }
  }

  /** Resolving `:qr:3:fg=#112233:[hello]` under the default settings: pixel
      size 3, the given foreground, the default background and level. */
  lemma DomainExample()
    ensures ResolveArgs(Defaults(Config(2, true, "#FFFFFF", "#000000", "L")), Captured("3:fg=#112233:"))
         == Success(Options(3, "#112233", "#FFFFFF", "L"))
  {
    var tokens := ["3", "fg=#112233"];
    var o := Options(2, "#000000", "#FFFFFF", "L");
    ExampleTokens();
    assert ResolveArgs(o, Captured("3:fg=#112233:")) == Fold(o, tokens);
    ExampleFirstStep(o);
    ExampleSecondStep(o.(pixelSize := 3));
    assert tokens[..1] == tokens[..|tokens| - 1];
    assert Fold(o, tokens) == Step(o.(pixelSize := 3), "fg=#112233");
  }

  lemma ExampleTokens()
    ensures OptionTokens("3:fg=#112233:") == ["3", "fg=#112233"]
  {
    OptionTokensRoundTrip(["3", "fg=#112233"]);
    assert Join(["3", "fg=#112233"], ':') + ":" == "3:fg=#112233:";
  }

  lemma ExampleFirstStep(o: Options)
    ensures Fold(o, ["3", "fg=#112233"][..1]) == Success(o.(pixelSize := 3))
  {
  }

  lemma ExampleSecondStep(o: Options)
    ensures Step(o, "fg=#112233") == Success(o.(fgColor := "#112233"))
  {
    SplitOnceJoin("fg", '=', "#112233");
    assert "fg=#112233" == "fg" + ['='] + "#112233";
    assert Lower("fg") == "fg";
  }

  /** In `:qr:4::[DATA]` the second option token is empty, and an empty bare
      token is an `int()` failure, not a default. */
  lemma EmptyTokenExample(o: Options)
    ensures ResolveArgs(o, Captured("4::")) == Failure(BadPixelToken(""))
  {
    var tokens := ["4", ""];
    OptionTokensRoundTrip(tokens);
    assert Join(tokens, ':') + ":" == "4::";
    assert ParseInt("4") == Some(4) by { assert DigitsValue("4") == 4; }
    assert SplitOnce("4", '=') == ["4"];
    assert tokens[..1][..0] == [];
    assert Fold(o, tokens[..1]) == Success(o.(pixelSize := 4));
    assert tokens[..1] == tokens[..|tokens| - 1];
  }
}
