# QR-code markdown extension: a Dafny model of the directive resolver

The extension in `mdx_qrcode/extension.py` adds two inline syntaxes to
Python-Markdown: the short syntax `[-[DATA]-]` and the domain syntax
`:qr:<OPTS>:[DATA]`, where OPTS is a colon-separated list of a bare pixel size
and `fg=`, `bg=`, `ec=` settings. Each match becomes an `img` element whose
`src` is a PNG data URI of the QR code for DATA and whose `title` repeats DATA.

This project models the logic the extension itself contains:

- `QrConfig` and `QrExtension.QrCodeExtension`: the configuration table
  (`self.config`), its defaults, the user settings applied over them, the
  conversion of the pixel size with `int()` and of the short-syntax flag with
  the truthy-word test, and the registration of the two patterns.
- `QrPattern`: `BasicQrCodePattern.handleMatch` — the option loop over the OPTS
  tokens (last occurrence wins per field, a non-integer bare token fails), the
  case-sensitive error-correction normalisation, and the `src` / `title`
  formats; no match yields the empty string.
- `PyStr`: the Python 2 string operations these rely on (`lower`, `split`,
  `split(sep, 1)`, `[:-1]`, `int`), with their round-trip lemmas.
- `Wrappers`: Option and Result.

The constructor and `handleMatch` are imperative in the source and are methods
here: the constructor applies the settings in a loop over a `map` field, and
`ResolveOptions` loops over the tokens while `ApplyOption` updates the four
option variables for one token. Each is proved against a pure specification
function (`Overridden`, `Fold`, `Step`), and the properties the source
promises are lemmas about those functions.

Modelling decisions:

- `setConfig` belongs to the markdown host and is not part of this model. The
  model assumes it replaces the value of an existing option and ignores names
  that are not options (`QrConfig.SetConfigEntry`).
- The QR library, the PNG writer and the base64 encoder are one parameter,
  `encode: Request -> Option<string>`. It returns the base64 payload, or None
  when the library raises. The request records what the source passes: the
  data, the pixel size, the normalised level and the two colours.
- The host's regular-expression engine is not modelled. `handleMatch` takes
  the named captures as input. `ArgsCapture` tells apart a pattern without an
  `args` group, an unmatched group (`None`) and matched text.
- Construction is split along the two phases of `__init__`: the constructor
  covers lines 85-94, `CoerceConfig` covers lines 97-98, and `MakeExtension`
  runs both and returns the `int()` failure as an error result.
- Python exceptions are `Failure` values: `int()` on the pixel-size setting,
  `int()` on a bare option token, `str()` on data that is not ASCII, and the
  QR library. The host hands `handleMatch` unicode text, so `str()` of the
  data (line 164) fails on any character outside ASCII.

## Model

| member | source | states |
|---|---|---|
| `PyStr.Lower` | mdx_qrcode/extension.py:146-150 | `lower()` keeps the length, leaves no ASCII capital, keeps every other character and maps each capital to its lower-case letter |
| `PyStr.LowerMatchesWord` | mdx_qrcode/extension.py:146-150 | `k.lower() == w`, for a lower-case word w, holds exactly for the spellings of w with each letter in either case |
| `PyStr.Split` | mdx_qrcode/extension.py:139 | `split(":")` always gives at least one piece, and exactly one iff the text has no `:` |
| `PyStr.SplitPieces` | mdx_qrcode/extension.py:139 | no piece of `split(":")` contains `:` |
| `PyStr.SplitJoin` | mdx_qrcode/extension.py:139 | splitting on `:` loses nothing: joining the pieces gives the string back |
| `PyStr.JoinSplit` | mdx_qrcode/extension.py:139 | pieces that contain no separator come back unchanged when their join is split |
| `PyStr.SplitOnce` | mdx_qrcode/extension.py:141 | `split("=", 1)` gives one piece iff the token has no `=`; otherwise two pieces: the text before the first `=` (which has no `=`) and all the text after it |
| `PyStr.SplitOnceJoin` | mdx_qrcode/extension.py:141-145 | `key=value` with no `=` in the key splits back into exactly that key and value, even when the value contains `=` |
| `PyStr.DropLast` | mdx_qrcode/extension.py:139 | `args[:-1]` is the string without its last character |
| `PyStr.ParseInt` | mdx_qrcode/extension.py:143 | `int()` succeeds iff the text is an optional `+` or `-` followed by at least one digit; it then gives the decimal value of the digits, negated after `-`; such a text ends in a digit |
| `PyStr.ParseIntRoundTrip` | mdx_qrcode/extension.py:97 | `int(str(n)) == n` for every integer |
| `QrConfig.DefaultConfig` | mdx_qrcode/extension.py:85-91 | the defaults table has exactly the five options, each holding a string |
| `QrConfig.Overridden` | mdx_qrcode/extension.py:93-94 | applying the user settings in order keeps the option set and keeps every entry a string |
| `QrConfig.SetConfigEntry` | mdx_qrcode/extension.py:94 | assumed `setConfig`: the option set does not change, the named option gets the new text with its description kept, and no other option changes |
| `QrConfig.OverriddenEntries` | mdx_qrcode/extension.py:93-94 | after the settings loop, each option holds the value it was given last, or its default |
| `QrConfig.Coerce` | mdx_qrcode/extension.py:97-98 | fails, with the offending text, iff the pixel-size text is not an integer; otherwise the pixel size is its integer value, the flag is the truthy test of its text, and the other entries are unchanged |
| `QrConfig.IsTruthy` | mdx_qrcode/extension.py:98 | the lower-cased setting is one of true/yes/t/y/1 iff the setting is "1" or a spelling of true, yes, t or y with each letter in either case |
| `QrConfig.Configure` | mdx_qrcode/extension.py:84-98 | `__init__` as a whole fails iff the last pixel-size setting, or the default "2", is not an integer |
| `QrConfig.ConfigureSettings` | mdx_qrcode/extension.py:85-98 | construction fails iff the last pixel-size setting (or "2") is not an integer; otherwise the short syntax is on iff the last setting (or "true"), lower-cased, is one of true/yes/t/y/1, and the colours and level are their last settings or the defaults |
| `QrConfig.TruthyExamples` | mdx_qrcode/extension.py:98 | examples of the truthy test: "TRUE", "Yes", "t", "Y" and "1" are accepted; "false", "no", "on", "0" and "" are rejected |
| `QrPattern.Regex` | mdx_qrcode/extension.py:115-117 | the domain and short syntaxes register different expressions: the result is the domain expression iff the syntax is the domain one |
| `QrPattern.Defaults` | mdx_qrcode/extension.py:131-134 | the option loop starts from the configured pixel size, foreground, background and level |
| `QrPattern.OptionTokens` | mdx_qrcode/extension.py:139 | `args[:-1].split(":")` gives at least one token, no token contains `:`, and joining the tokens with `:` gives `args[:-1]` back |
| `QrPattern.OptionTokensRoundTrip` | mdx_qrcode/extension.py:139 | dropping the trailing `:` of an `args` capture and splitting on `:` recovers the tokens it spells |
| `QrPattern.Step` | mdx_qrcode/extension.py:141-150 | a token can fail only when it has no `=`, and the error names the token |
| `QrPattern.StepEffect` | mdx_qrcode/extension.py:141-150 | a bare token that succeeds sets the pixel size to its `int()` value and changes nothing else; a keyed token always succeeds, leaves the pixel size alone, and changes fg, bg or ec only when its lower-cased key is that name |
| `QrPattern.Fold` | mdx_qrcode/extension.py:140-151 | the loop can fail only with a bad pixel-size token error |
| `QrPattern.ResolveArgs` | mdx_qrcode/extension.py:133-151 | with no `args` group, or an unmatched one, the options are the configured values; a failure names a token that has no `=` and is not an integer |
| `QrPattern.ResolveOptions` | mdx_qrcode/extension.py:131-151 | with no `args` group, or an unmatched one, the options are the configured values unchanged; otherwise they are the fold of the tokens |
| `QrPattern.ApplyOption` | mdx_qrcode/extension.py:141-150 | the loop body computes exactly what Step specifies for one token |
| `QrPattern.FoldStops` | mdx_qrcode/extension.py:142-143 | once a token fails, the loop's result is that failure, whatever tokens follow |
| `QrPattern.FoldAppend` | mdx_qrcode/extension.py:140-151 | the option loop over `xs + ys` continues from where `xs` left off, and a failure in `xs` is the final result |
| `QrPattern.FoldLastWins` | mdx_qrcode/extension.py:140-151 | when the loop succeeds, each of fg, bg and ec is the value of the last token with that key (any letter case), or its configured value; the pixel size is the integer of the last bare token, or its configured value |
| `QrPattern.StepFails` | mdx_qrcode/extension.py:141-143 | one token fails iff it has no `=` and is not an integer, and the error names that token |
| `QrPattern.FoldFails` | mdx_qrcode/extension.py:142-143 | the option loop fails iff some token has no `=` and is not an integer; the empty token is one of these |
| `QrPattern.FoldFailsAtFirst` | mdx_qrcode/extension.py:142-143 | a failure names the first such token |
| `QrPattern.NormaliseEc` | mdx_qrcode/extension.py:153-162 | the level is M, H or Q iff the string is exactly "M", "H" or "Q"; every other string, lower case included, gives L |
| `QrPattern.Src` | mdx_qrcode/extension.py:178 | `src` starts with `data:image/png;base64,` and the rest of it is the payload |
| `QrPattern.Title` | mdx_qrcode/extension.py:179 | `title` is `qrcode for : `, then the data verbatim, then one space |
| `QrPattern.IsAscii` | mdx_qrcode/extension.py:164 | `str()` of the data succeeds iff every character of it is below 128 |
| `QrPattern.RequestFor` | mdx_qrcode/extension.py:166-173 | the library receives the data, the resolved pixel size and the normalised level; the foreground becomes the dark colour and the background the light colour |
| `QrPattern.HandleMatch` | mdx_qrcode/extension.py:125-185 | no match yields the empty string; a bad bare token is an error; after the options resolve, data that is not ASCII is an error and the library is not called; a library failure is an error; otherwise the result is an image whose src carries the payload of the request built from the resolved options and the normalised level, and whose title is built from the data |
| `QrExtension.QrCodeExtension.constructor` | mdx_qrcode/extension.py:84-94 | the table is the defaults with the user's settings applied in order |
| `QrExtension.QrCodeExtension.SetConfig` | mdx_qrcode/extension.py:94 | the table changes as SetConfigEntry says |
| `QrExtension.QrCodeExtension.CoerceConfig` | mdx_qrcode/extension.py:97-98 | on an `int()` failure the table is unchanged and the error is returned; otherwise the table becomes its coerced form |
| `QrExtension.QrCodeExtension.ExtendMarkdown` | mdx_qrcode/extension.py:107-117 | the domain pattern is always registered, first; a short pattern is registered iff the coerced flag is true; each keeps the regular expression of its syntax, and both read the extension's settings |
| `QrExtension.MakeExtension` | mdx_qrcode/extension.py:77-98 | a fresh extension whose coerced table gives the settings Configure describes, or the error Configure predicts |
| `QrExtension.DefaultSettings` | mdx_qrcode/extension.py:85-98 | with no user settings: pixel size 2, short syntax on, white background, black foreground, level L |
| `QrExtension.DomainExample` | mdx_qrcode/extension.py:136-151 | `:qr:3:fg=#112233:[...]` under the defaults resolves to pixel size 3, foreground #112233, default background and level |
| `QrExtension.EmptyTokenExample` | mdx_qrcode/extension.py:139-143 | `:qr:4::[...]` fails on the empty token instead of falling back to a default |

## Left out

- QR symbol construction and rendering (`QRCode`, `addData`, `make`, `makeImage`) belong to the QR library, which is not part of this model. They are the opaque `encode` parameter. The model records that the source passes the pixel size both to `QRCode()` and to `makeImage()`.
- PNG serialisation into `StringIO` and `b64encode` are library I/O and encoding. The payload is an uninterpreted string produced by `encode`.
- The regular expressions are kept as constants, but matching is done by the host, and the `args` and `data` captures are inputs. `add_inline` (lines 101-112) builds each pattern from its regular expression and `self.config` and registers it; `ExtendMarkdown` models that. What it hands to the host is not modelled: the `md` and `ext` back-references, the `"<reference"` insertion point, and the host's own wrapping of the expression in `Pattern.__init__`. The `etree` element construction is host behaviour and is not modelled either.
- `QrConfig.SetConfigEntry`: the host's `setConfig` is not part of this model, so its behaviour for unknown option names (ignored here) is an assumption, not a verified fact. The host may instead raise `KeyError` for an unknown name, as a `setConfig` written as `self.config[key][0] = value` does; that failure is not modelled.
- `PyStr.ParseInt`: `int()` is modelled as an optional sign followed by one or more ASCII digits. Python 2 also accepts whitespace around and after the sign (`"- 5"` gives -5) and non-ASCII decimal digits in unicode text; neither is modelled.
- `PyStr.Lower`: only ASCII capitals are lowered, while Python also lowers non-ASCII capitals in the unicode text the host passes (`u"É".lower()` is `u"é"`). So `Lower`'s own contract, which keeps every non-ASCII character, differs from Python. The comparisons the source makes (lines 98 and 146-150) still come out the same. The only non-ASCII characters that Python lowers to ASCII are U+0130 (to `i`) and U+212A (to `k`), and neither letter occurs in `fg`, `bg`, `ec` or the truthy words.
- Setting values are taken to be strings. A non-string value (for example an int for `useShortSyntax`, which would make `.lower()` raise) is not modelled.
- The shared dictionary that `BasicQrCodePattern` keeps a reference to (line 122) is modelled as a copy of the typed settings. The table does not change after construction, so the copy cannot differ from the original.
- `makeExtension` with its default `configs=None` (lines 187-188) would fail when it iterates over None. Only a list of (name, value) pairs is modelled.
- The `__main__` demo (lines 190-195) prints a conversion and is left out.
