/** BasicQrCodePattern: what one directive match turns into. The option
    segment is split into tokens and folded into the four rendering options
    (last occurrence wins), the error-correction string is normalised, and
    the image element's `src` and `title` are formatted. */
module QrPattern {
  import opened Wrappers
  import opened PyStr
  import opened QrConfig

  // ------------------------------------------------------------- patterns

  /** The two inline syntaxes: `:qr:<OPTS>:[DATA]` and `[-[DATA]-]`. */
  datatype Syntax = Domain | Short

  const DomainRegex: string := ":(?:qr|QR):(?P<args>[^\\[\\]]+:)?\\[(?P<data>.*)\\]"
  const ShortRegex: string := "\\[\\-\\[(?P<data>.*)\\]\\-\\]"

  /** The regular expression `extendMarkdown` registers for each syntax;
      only the domain syntax has an `args` group. */
  function Regex(syntax: Syntax): (re: string)
    ensures re == DomainRegex <==> syntax == Domain
  {
    match syntax
    case Domain => DomainRegex
    case Short => ShortRegex
  }

  /** A pattern object: its registered name, its syntax, the regular
      expression it keeps as `self.pattern`, and the typed view of the
      extension's (already coerced) configuration it reads. */
  datatype BasicQrCodePattern = BasicQrCodePattern(name: string, syntax: Syntax, pattern: string, config: Config)

  /** The `args` capture: absent from the pattern (short syntax), present but
      not matched (domain syntax without OPTS), or matched text. */
  datatype ArgsCapture = NoGroup | Unmatched | Captured(text: string)

  /** The named captures of one match. */
  datatype Match = Match(args: ArgsCapture, data: string)

  // ------------------------------------------------------ option resolution

  /** The four values resolved for one directive, before the
      error-correction string is normalised. */
  datatype Options = Options(pixelSize: int, fgColor: string, bgColor: string, ecLevel: string)

  /** A bare option token that `int()` rejects, data that `str()` cannot
      encode as ASCII, or the QR library failing. */
  datatype MatchError = BadPixelToken(token: string) | NonAsciiData | EncodingFailed

  /** The starting values of the option loop: the pixel size, colours and
      level the extension was configured with. */
  function Defaults(c: Config): (o: Options)
    ensures o.pixelSize == c.pixelSize && o.ecLevel == c.ecLevel
    ensures o.fgColor == c.fgColor && o.bgColor == c.bgColor
  {
    Options(c.pixelSize, c.fgColor, c.bgColor, c.ecLevel)
  }

  /** The option tokens of a matched `args` capture: its trailing `:` is
      dropped and the rest split on `:`. */
  function OptionTokens(args: string): (tokens: seq<string>)
    ensures |tokens| >= 1
    ensures forall i :: 0 <= i < |tokens| ==> ':' !in tokens[i]
    ensures Join(tokens, ':') == DropLast(args)
  {
    SplitPieces(DropLast(args), ':');
    SplitJoin(DropLast(args), ':');
    Split(DropLast(args), ':')
  }

  /** Dropping the trailing `:` and splitting recovers every token list that
      the domain syntax can spell. */
  lemma OptionTokensRoundTrip(tokens: seq<string>)
    requires |tokens| >= 1
    requires forall i :: 0 <= i < |tokens| ==> ':' !in tokens[i]
    ensures OptionTokens(Join(tokens, ':') + ":") == tokens
  {
    JoinSplit(tokens, ':');
    assert DropLast(Join(tokens, ':') + ":") == Join(tokens, ':');
  }

  /** One token of the option loop: split once on `=`; a bare token sets the
      pixel size through `int()`; a `fg`, `bg` or `ec` key (any letter case)
      sets that field to the value verbatim; any other key does nothing. */
  function Step(o: Options, arg: string): (r: Result<Options, MatchError>)
    ensures r.Failure? ==> '=' !in arg && r.error == BadPixelToken(arg)
  {
    var c := SplitOnce(arg, '=');
    if |c| == 1 then
      match ParseInt(c[0])
      case None => Failure(BadPixelToken(c[0]))
      case Some(n) => Success(o.(pixelSize := n))
    else
      var k := Lower(c[0]);
      var v := c[1];
      if k == "fg" then Success(o.(fgColor := v))
      else if k == "bg" then Success(o.(bgColor := v))
      else if k == "ec" then Success(o.(ecLevel := v))
      else Success(o)
  }

  /** The option loop over a token list: a left fold of Step that stops at
      the first failure. */
  function Fold(o: Options, args: seq<string>): (r: Result<Options, MatchError>)
    ensures r.Failure? ==> r.error.BadPixelToken?
    decreases |args|
  {
    if args == [] then Success(o)
    else match Fold(o, args[..|args| - 1])
      case Failure(e) => Failure(e)
      case Success(p) => Step(p, args[|args| - 1])
  }

  /** The options a match resolves to: the defaults, unless an `args`
      capture is present and matched. */
  function ResolveArgs(o: Options, args: ArgsCapture): (r: Result<Options, MatchError>)
    ensures !args.Captured? ==> r == Success(o)
    ensures r.Failure? ==> r.error.BadPixelToken? && BadBare(r.error.token)
  {
    match args
    case Captured(text) =>
      var tokens := OptionTokens(text);
      if Fold(o, tokens).Failure? then FoldFailsAtFirst(o, tokens); Fold(o, tokens)
      else Fold(o, tokens)
    case _ => Success(o)
  }

  /** The loop of `handleMatch`: the four options start at the configured
      values and are updated token by token; a bad bare token ends the
      match. */
  method ResolveOptions(o: Options, args: ArgsCapture) returns (r: Result<Options, MatchError>)
    ensures !args.Captured? ==> r == Success(o)
    ensures r == ResolveArgs(o, args)
  {
    var current := o;
    if args.Captured? {
      var tokens := Split(DropLast(args.text), ':');
      var i := 0;
      while i < |tokens|
        invariant 0 <= i <= |tokens|
        invariant Fold(o, tokens[..i]) == Success(current)
      {
        FoldNext(o, tokens, i, current);
        var next := ApplyOption(current, tokens[i]);
        if next.Failure? {
          FoldStops(o, tokens, i, current);
          assert ResolveArgs(o, args) == Fold(o, tokens);
          return next;
        }
        current := next.value;
        i := i + 1;
      }
      assert tokens[..i] == tokens;
      assert ResolveArgs(o, args) == Fold(o, tokens);
    }
    r := Success(current);
  }

  /** The body of that loop for one token: split once on `=`; a bare token
      goes through `int()` into the pixel size, a `fg`, `bg` or `ec` key
      (after `lower()`) sets that option, any other key is skipped. */
  method ApplyOption(o: Options, token: string) returns (r: Result<Options, MatchError>)
    ensures r == Step(o, token)
  {
    var pixelSize, fgColor, bgColor, ecLevel := o.pixelSize, o.fgColor, o.bgColor, o.ecLevel;
    var c := SplitOnce(token, '=');
    if |c| == 1 {
      var n := ParseInt(c[0]);
      if n.None? {
        return Failure(BadPixelToken(c[0]));
      }
      pixelSize := n.value;
    } else {
      var k := Lower(c[0]);
      if k == "fg" {
        fgColor := c[1];
      } else if k == "bg" {
        bgColor := c[1];
      } else if k == "ec" {
        ecLevel := c[1];
      }
    }
    r := Success(Options(pixelSize, fgColor, bgColor, ecLevel));
  }

  // ------------------------------------------------- properties of the fold

  /** One more token of the loop is one more Step. */
  lemma FoldNext(o: Options, args: seq<string>, i: nat, p: Options)
    requires i < |args|
    requires Fold(o, args[..i]) == Success(p)
    ensures Fold(o, args[..i + 1]) == Step(p, args[i])
  {
    assert args[..i + 1][..i] == args[..i];
  }

  /** A failing token ends the loop: the rest of the list is not looked at. */
  lemma FoldStops(o: Options, args: seq<string>, i: nat, p: Options)
    requires i < |args|
    requires Fold(o, args[..i]) == Success(p)
    requires Step(p, args[i]).Failure?
    ensures Fold(o, args) == Step(p, args[i])
  {
    FoldNext(o, args, i, p);
    FoldAppend(o, args[..i + 1], args[i + 1..]);
    assert args[..i + 1] + args[i + 1..] == args;
  }

  /** Folding a list in two parts is folding the second part from where the
      first one ended; a failure in the first part is final. */
  lemma {:induction false} FoldAppend(o: Options, xs: seq<string>, ys: seq<string>)
    ensures Fold(o, xs + ys) ==
      match Fold(o, xs)
      case Failure(e) => Failure(e)
      case Success(p) => Fold(p, ys)
    decreases |ys|
  {
    if ys == [] {
      assert xs + ys == xs;
    } else {
      var init := ys[..|ys| - 1];
      FoldAppend(o, xs, init);
      assert (xs + ys)[..|xs + ys| - 1] == xs + init;
      assert (xs + ys)[|xs + ys| - 1] == ys[|ys| - 1];
    }
  }

  /** The last token that holds no `=`, if any. */
  function LastBare(args: seq<string>): Option<string>
    decreases |args|
  {
    if args == [] then None
    else if '=' !in args[|args| - 1] then Some(args[|args| - 1])
    else LastBare(args[..|args| - 1])
  }

  /** The value of the last `key=value` token whose key, lower-cased, is
      `key`, if any. */
  function LastKeyed(args: seq<string>, key: string): Option<string>
    decreases |args|
  {
    if args == [] then None
    else
      var c := SplitOnce(args[|args| - 1], '=');
      if |c| == 2 && Lower(c[0]) == key then Some(c[1])
      else LastKeyed(args[..|args| - 1], key)
  }

  /** Last occurrence wins, field by field: the pixel size is the value of
      the last bare token, each colour and the error-correction level the
      value of the last token with its key, and a field no token names
      keeps its configured value. */
  lemma {:induction false} FoldLastWins(o: Options, args: seq<string>)
    requires Fold(o, args).Success?
    ensures var r := Fold(o, args).value;
      && r.fgColor == LastKeyed(args, "fg").GetOr(o.fgColor)
      && r.bgColor == LastKeyed(args, "bg").GetOr(o.bgColor)
      && r.ecLevel == LastKeyed(args, "ec").GetOr(o.ecLevel)
      && (LastBare(args).None? ==> r.pixelSize == o.pixelSize)
      && (LastBare(args).Some? ==> ParseInt(LastBare(args).value) == Some(r.pixelSize))
    decreases |args|
  {
    if args != [] {
      FoldLastWins(o, args[..|args| - 1]);
    }
  }

  /** A token that makes the option loop fail: no `=` and not an integer
      (this includes the empty token). */
  predicate BadBare(arg: string) {
    '=' !in arg && ParseInt(arg).None?
  }

  /** What one token changes: a bare token that is an integer sets the pixel
      size and nothing else; a keyed token never touches the pixel size and
      changes a colour or the level only when its lower-cased key names it. */
  lemma StepEffect(o: Options, arg: string)
    ensures Step(o, arg).Success? && '=' !in arg ==>
      var p := Step(o, arg).value;
      ParseInt(arg) == Some(p.pixelSize) && p == o.(pixelSize := p.pixelSize)
    ensures '=' in arg ==>
      var key := Lower(SplitOnce(arg, '=')[0]);
      && Step(o, arg).Success?
      && Step(o, arg).value.pixelSize == o.pixelSize
      && (Step(o, arg).value.fgColor != o.fgColor ==> key == "fg")
      && (Step(o, arg).value.bgColor != o.bgColor ==> key == "bg")
      && (Step(o, arg).value.ecLevel != o.ecLevel ==> key == "ec")
  {
  }

  /** One token fails exactly when it is a bad bare token, and then its
      error names it. */
  lemma StepFails(o: Options, arg: string)
    ensures Step(o, arg).Failure? <==> BadBare(arg)
    ensures Step(o, arg).Failure? ==> Step(o, arg).error == BadPixelToken(arg)
  {
  }

  /** The option loop fails exactly when some token is a bad bare token. */
  lemma {:induction false} FoldFails(o: Options, args: seq<string>)
    ensures Fold(o, args).Failure? <==> exists i :: 0 <= i < |args| && BadBare(args[i])
    decreases |args|
  {
    if args != [] {
      var init := args[..|args| - 1];
      var last := args[|args| - 1];
      FoldFails(o, init);
      assert forall i :: 0 <= i < |init| ==> args[i] == init[i];
      if Fold(o, init).Failure? {
        assert Fold(o, args) == Fold(o, init);
        var i :| 0 <= i < |init| && BadBare(init[i]);
        assert BadBare(args[i]);
      } else {
        var p := Fold(o, init).value;
        assert Fold(o, args) == Step(p, last);
        StepFails(p, last);
        assert BadBare(last) == BadBare(args[|args| - 1]);
      }
    }
  }

  /** When the option loop fails, its error names the first bad bare token. */
  lemma {:induction false} FoldFailsAtFirst(o: Options, args: seq<string>)
    requires Fold(o, args).Failure?
    ensures exists i ::
      && 0 <= i < |args|
      && BadBare(args[i])
      && Fold(o, args).error == BadPixelToken(args[i])
      && forall j :: 0 <= j < i ==> !BadBare(args[j])
    decreases |args|
  {
    var init := args[..|args| - 1];
    if Fold(o, init).Failure? {
      FoldFailsAtFirst(o, init);
      var i :| 0 <= i < |init| && BadBare(init[i])
        && Fold(o, init).error == BadPixelToken(init[i])
        && forall j :: 0 <= j < i ==> !BadBare(init[j]);
      assert args[i] == init[i];
      assert forall j :: 0 <= j < i ==> args[j] == init[j];
    } else {
      FoldFails(o, init);
      StepFails(Fold(o, init).value, args[|args| - 1]);
      var i := |args| - 1;
      assert forall j :: 0 <= j < i ==> args[j] == init[j];
      assert BadBare(args[i]) && Fold(o, args).error == BadPixelToken(args[i]);
    }
  }

  // ------------------------------------------------- error-correction level

  /** The QR library's error-correction levels. */
  datatype EcLevel = L | M | Q | H

  /** Exactly "M", "H" and "Q" select their level; every other string,
      lower-case spellings included, selects L. */
  function NormaliseEc(s: string): (level: EcLevel)
    ensures level == M <==> s == "M"
    ensures level == H <==> s == "H"
    ensures level == Q <==> s == "Q"
    ensures level == L <==> s != "M" && s != "H" && s != "Q"
  {
    if s == "L" then L
    else if s == "M" then M
    else if s == "H" then H
    else if s == "Q" then Q
    else L
  }

  // ------------------------------------------------------ output attributes

  const SrcPrefix: string := "data:image/png;base64,"
  const TitlePrefix: string := "qrcode for : "

  /** The `src` attribute: the PNG data-URI prefix followed by the base64
      payload, which can be read back off the end. */
  function Src(payload: string): (src: string)
    ensures |src| == |SrcPrefix| + |payload|
    ensures src[..|SrcPrefix|] == SrcPrefix && src[|SrcPrefix|..] == payload
  {
    SrcPrefix + payload
  }

  /** The `title` attribute: the fixed prefix, the data verbatim, one space. */
  function Title(data: string): (title: string)
    ensures |title| == |TitlePrefix| + |data| + 1
    ensures title[..|TitlePrefix|] == TitlePrefix
    ensures title[|TitlePrefix|..|title| - 1] == data
    ensures title[|title| - 1] == ' '
  {
    TitlePrefix + data + " "
  }

  // ------------------------------------------------------------ handleMatch

  /** What the QR library is asked for: the symbol is built from the data,
      the pixel size and the level; the image is rendered at the pixel size
      in the two colours. */
  datatype Request = Request(data: string, pixelSize: int, ecLevel: EcLevel, darkColor: string, lightColor: string)

  /** The replacement of a match: an `img` element, or the empty string. */
  datatype Replacement = Image(src: string, title: string) | EmptyText

  /** The request built for a match whose options resolved to `o`. */
  function RequestFor(m: Match, o: Options): (q: Request)
    ensures q.data == m.data && q.pixelSize == o.pixelSize
    ensures q.ecLevel == NormaliseEc(o.ecLevel)
    ensures q.darkColor == o.fgColor && q.lightColor == o.bgColor
  {
    Request(m.data, o.pixelSize, NormaliseEc(o.ecLevel), o.fgColor, o.bgColor)
  }

  /** Python 2's `str()` of unicode text succeeds only on ASCII text. */
  predicate IsAscii(s: string): (b: bool)
    ensures b <==> forall c :: c in s ==> c as int < 128
  {
    assert (forall i :: 0 <= i < |s| ==> s[i] as int < 128) ==> forall c :: c in s ==> c as int < 128 by {
      if forall i :: 0 <= i < |s| ==> s[i] as int < 128 {
        forall c | c in s ensures c as int < 128 {
          var i :| 0 <= i < |s| && s[i] == c;
        }
      }
    }
    assert (forall c :: c in s ==> c as int < 128) ==> forall i :: 0 <= i < |s| ==> s[i] as int < 128 by {
      if forall c :: c in s ==> c as int < 128 {
        forall i | 0 <= i < |s| ensures s[i] as int < 128 {
          assert s[i] in s;
        }
      }
    }
    forall i :: 0 <= i < |s| ==> s[i] as int < 128
  }

  /** `handleMatch`. The QR library, PNG writer and base64 encoder together
      are `encode`, which yields the base64 payload or None when the library
      fails. No match gives the empty string; after the options are resolved,
      `str()` of non-ASCII data fails before the library is called. */
  method HandleMatch(p: BasicQrCodePattern, m: Option<Match>, encode: Request -> Option<string>)
    returns (r: Result<Replacement, MatchError>)
    ensures m.None? ==> r == Success(EmptyText)
    ensures m.Some? ==>
      match ResolveArgs(Defaults(p.config), m.value.args)
      case Failure(e) => r == Failure(e)
      case Success(o) =>
        if !IsAscii(m.value.data) then r == Failure(NonAsciiData)
        else match encode(RequestFor(m.value, o))
        case None => r == Failure(EncodingFailed)
        case Some(payload) => r == Success(Image(Src(payload), Title(m.value.data)))
  {
    if m.None? {
      return Success(EmptyText);
    }
    var captures := m.value;
    var resolved := ResolveOptions(Defaults(p.config), captures.args);
    if resolved.Failure? {
      return Failure(resolved.error);
    }
    var o := resolved.value;
    var ecLevel := NormaliseEc(o.ecLevel);
    if !IsAscii(captures.data) {
      return Failure(NonAsciiData);
    }
    var png := encode(Request(captures.data, o.pixelSize, ecLevel, o.fgColor, o.bgColor));
    if png.None? {
      return Failure(EncodingFailed);
    }
    r := Success(Image(Src(png.value), Title(captures.data)));
  }
}
