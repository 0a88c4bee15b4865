/** Brand-kit validation and linting (`validateBrandKit`, `lintBrandKit`).
    The floating-point luminance comparison `hasGoodContrast` is a parameter. */
module BrandKitValidation {
  import opened Wrappers
  import opened JsString
  import opened FlashFusionTypes

  datatype Severity = Error | Warning

  datatype ValidationError = ValidationError(field: string, message: string, severity: Severity)

  datatype ValidationResult = ValidationResult(valid: bool, errors: seq<ValidationError>)

  // ---------------------------------------------------------------------------
  // Hex colours
  // ---------------------------------------------------------------------------

  /** `/^#([A-Fa-f0-9]{6}|[A-Fa-f0-9]{3})$/`: the two alternatives of the
      regular expression, each anchored at both ends. */
  predicate IsValidHexColor(hex: string)
  {
    HexDigitsAfterHash(hex, 6) || HexDigitsAfterHash(hex, 3)
  }

  /** `#` followed by exactly n hex digits. */
  predicate HexDigitsAfterHash(hex: string, n: nat)
  {
    |hex| == n + 1 && hex[0] == '#' && forall i :: 1 <= i < |hex| ==> IsHexDigit(hex[i])
  }

  /** A 24-bit colour written as `#` and six zero-padded hex digits passes the check. */
  lemma FormattedColorIsValid(rgb: nat)
    requires rgb < 0x100_0000
    ensures IsValidHexColor("#" + PadStart(NatToString(rgb, 16), 6, '0'))
  {
    assert Pow16(6) == 0x100_0000 by {
      assert Pow16(1) == 16;
      assert Pow16(2) == 256;
      assert Pow16(3) == 4096;
    }
    HexLengthBound(rgb, 6);
    var digits := NatToString(rgb, 16);
    var s := "#" + PadStart(digits, 6, '0');
    forall i | 1 <= i < |s| ensures IsHexDigit(s[i]) {
      var p := PadStart(digits, 6, '0');
      assert s[i] == p[i - 1];
      if i - 1 >= |p| - |digits| {
        assert p[i - 1] == p[|p| - |digits|..][i - 1 - (|p| - |digits|)];
      }
    }
    assert HexDigitsAfterHash(s, 6);
  }

  /** Any other length is refused, whatever the characters. */
  lemma HexColorLength(hex: string)
    requires IsValidHexColor(hex)
    ensures |hex| == 4 || |hex| == 7
    ensures hex[0] == '#'
  {
  }

  /** The character classes accept both cases: lower-casing a colour never
      changes whether it passes. */
  lemma HexColorIgnoresCase(hex: string)
    ensures IsValidHexColor(ToLower(hex)) <==> IsValidHexColor(hex)
  {
    var lower := ToLower(hex);
    forall i | 0 <= i < |hex| ensures IsHexDigit(lower[i]) <==> IsHexDigit(hex[i]) {
      assert lower[i] == LowerChar(hex[i]);
    }
    if |hex| > 0 {
      assert lower[0] == LowerChar(hex[0]);
    }
  }

  // ---------------------------------------------------------------------------
  // The entries `validateBrandKit` reports, in check order
  // ---------------------------------------------------------------------------

  /** `${list}[${index}].${part}` */
  function IndexedField(list: string, i: nat, part: string): string
  {
    list + "[" + NatToString(i, 10) + "]." + part
  }

  function ColorField(i: nat, part: string): string
  {
    IndexedField("colors", i, part)
  }

  function FontField(i: nat, part: string): string
  {
    IndexedField("fonts", i, part)
  }

  function NameErrors(kit: PartialBrandKit): seq<ValidationError>
  {
    if kit.name.None? || IsBlank(kit.name.value)
    then [ValidationError("name", "Brand kit name is required", Error)]
    else []
  }

  predicate HasUsage(colors: seq<BrandColor>, usage: ColorUsage)
  {
    exists i :: 0 <= i < |colors| && colors[i].usage == usage
  }

  /** `colors.find(c => c.usage === usage)` */
  function FindUsage(colors: seq<BrandColor>, usage: ColorUsage): (r: Option<BrandColor>)
    ensures r.Some? <==> HasUsage(colors, usage)
    ensures r.Some? ==> r.value in colors && r.value.usage == usage
    ensures r.Some? ==> exists i :: 0 <= i < |colors| && colors[i] == r.value
                                    && forall k :: 0 <= k < i ==> colors[k].usage != usage
  {
    if colors == [] then None
    else if colors[0].usage == usage then Some(colors[0])
    else
      var r := FindUsage(colors[1..], usage);
      assert HasUsage(colors, usage) ==> HasUsage(colors[1..], usage) by {
        if HasUsage(colors, usage) {
          var i :| 0 <= i < |colors| && colors[i].usage == usage;
          assert colors[1..][i - 1] == colors[i];
        }
      }
      assert r.Some? ==> exists i :: 0 <= i < |colors| && colors[i] == r.value
                                     && forall k :: 0 <= k < i ==> colors[k].usage != usage by {
        if r.Some? {
          var i :| 0 <= i < |colors[1..]| && colors[1..][i] == r.value
                   && forall k :: 0 <= k < i ==> colors[1..][k].usage != usage;
          assert colors[i + 1] == r.value;
          forall k | 0 <= k < i + 1 ensures colors[k].usage != usage {
            if k > 0 { assert colors[k] == colors[1..][k - 1]; }
          }
        }
      }
      r
  }

  /** What one colour of the `forEach` adds. */
  function ColorEntryErrors(i: nat, color: BrandColor): seq<ValidationError>
  {
    (if !IsValidHexColor(color.hex)
     then [ValidationError(ColorField(i, "hex"), "Invalid hex color: " + color.hex, Error)]
     else [])
    + (if IsBlank(color.name)
       then [ValidationError(ColorField(i, "name"), "Color name is required", Error)]
       else [])
  }

  /** The entries of the first n colours. */
  function ColorEach(colors: seq<BrandColor>, n: nat): seq<ValidationError>
    requires n <= |colors|
  {
    if n == 0 then [] else ColorEach(colors, n - 1) + ColorEntryErrors(n - 1, colors[n - 1])
  }

  const LowContrast := ValidationError("colors", "Low contrast between primary and neutral colors", Warning)

  function ContrastErrors(colors: seq<BrandColor>, goodContrast: (string, string) -> bool): seq<ValidationError>
  {
    var primary, neutral := FindUsage(colors, Primary), FindUsage(colors, Neutral);
    if primary.Some? && neutral.Some? && !goodContrast(primary.value.hex, neutral.value.hex)
    then [LowContrast]
    else []
  }

  function ColorErrors(kit: PartialBrandKit, goodContrast: (string, string) -> bool): seq<ValidationError>
  {
    if kit.colors.None? || |kit.colors.value| == 0
    then [ValidationError("colors", "At least one color is required", Error)]
    else
      var colors := kit.colors.value;
      (if !HasUsage(colors, Primary)
       then [ValidationError("colors", "Brand kit should have a primary color", Warning)]
       else [])
      + ColorEach(colors, |colors|)
      + ContrastErrors(colors, goodContrast)
  }

  function FontEntryErrors(i: nat, font: BrandFont): seq<ValidationError>
  {
    (if IsBlank(font.name)
     then [ValidationError(FontField(i, "name"), "Font name is required", Error)]
     else [])
    + (if IsBlank(font.family)
       then [ValidationError(FontField(i, "family"), "Font family is required", Error)]
       else [])
    + (if |font.weights| == 0
       then [ValidationError(FontField(i, "weights"), "At least one font weight is required", Warning)]
       else [])
  }

  function FontEach(fonts: seq<BrandFont>, n: nat): seq<ValidationError>
    requires n <= |fonts|
  {
    if n == 0 then [] else FontEach(fonts, n - 1) + FontEntryErrors(n - 1, fonts[n - 1])
  }

  function FontErrors(kit: PartialBrandKit): seq<ValidationError>
  {
    if kit.fonts.None? || |kit.fonts.value| == 0
    then [ValidationError("fonts", "At least one font is required", Warning)]
    else FontEach(kit.fonts.value, |kit.fonts.value|)
  }

  /** The logo check is a truthiness test: an empty string counts as missing. */
  function LogoErrors(kit: PartialBrandKit): seq<ValidationError>
  {
    if kit.logo.None? || kit.logo.value == ""
    then [ValidationError("logo", "Brand logo is recommended", Warning)]
    else []
  }

  function GuidelineErrors(kit: PartialBrandKit): seq<ValidationError>
  {
    if kit.guidelines.None? || IsBlank(kit.guidelines.value)
    then [ValidationError("guidelines", "Brand guidelines help maintain consistency", Warning)]
    else []
  }

  /** Every entry `validateBrandKit` reports, in the order it checks. */
  function ValidationErrors(kit: PartialBrandKit, goodContrast: (string, string) -> bool): seq<ValidationError>
  {
    NameErrors(kit) + ColorErrors(kit, goodContrast) + FontErrors(kit) + LogoErrors(kit) + GuidelineErrors(kit)
  }

  /** `errors.filter(e => e.severity === 'error').length === 0` */
  predicate NoErrors(errors: seq<ValidationError>)
  {
    forall i :: 0 <= i < |errors| ==> errors[i].severity != Error
  }

  // ---------------------------------------------------------------------------
  // validateBrandKit
  // ---------------------------------------------------------------------------

  method ValidateBrandKit(kit: PartialBrandKit, goodContrast: (string, string) -> bool)
    returns (result: ValidationResult)
    ensures result.errors == ValidationErrors(kit, goodContrast)
    ensures result.valid <==> NoErrors(result.errors)
  {
    var errors: seq<ValidationError> := [];
    if kit.name.None? || IsBlank(kit.name.value) {
      errors := errors + [ValidationError("name", "Brand kit name is required", Error)];
    }
    assert errors == NameErrors(kit);
    var colorErrors := CheckColors(kit, goodContrast);
    errors := errors + colorErrors;
    var fontErrors := CheckFonts(kit);
    errors := errors + fontErrors;
    ghost var checked := errors;
    if kit.logo.None? || kit.logo.value == "" {
      errors := errors + [ValidationError("logo", "Brand logo is recommended", Warning)];
    }
    assert errors == checked + LogoErrors(kit);
    ghost var withLogo := errors;
    if kit.guidelines.None? || IsBlank(kit.guidelines.value) {
      errors := errors + [ValidationError("guidelines", "Brand guidelines help maintain consistency", Warning)];
    }
    assert errors == withLogo + GuidelineErrors(kit);
    var valid := CountsNoErrors(errors);
    result := ValidationResult(valid, errors);
  }

  /** The colour section of `validateBrandKit`. */
  method CheckColors(kit: PartialBrandKit, goodContrast: (string, string) -> bool)
    returns (errors: seq<ValidationError>)
    ensures errors == ColorErrors(kit, goodContrast)
  {
    errors := [];
    if kit.colors.None? || |kit.colors.value| == 0 {
      errors := errors + [ValidationError("colors", "At least one color is required", Error)];
      return;
    }
    var colors := kit.colors.value;
    if !HasUsage(colors, Primary) {
      errors := errors + [ValidationError("colors", "Brand kit should have a primary color", Warning)];
    }
    var entries := CheckEachColor(colors);
    errors := errors + entries;
    ghost var looped := errors;
    var primary, neutral := FindUsage(colors, Primary), FindUsage(colors, Neutral);
    if primary.Some? && neutral.Some? && !goodContrast(primary.value.hex, neutral.value.hex) {
      errors := errors + [LowContrast];
    }
    assert errors == looped + ContrastErrors(colors, goodContrast);
  }

  /** The `forEach` over the colours. */
  method CheckEachColor(colors: seq<BrandColor>) returns (errors: seq<ValidationError>)
    ensures errors == ColorEach(colors, |colors|)
  {
    errors := [];
    var i := 0;
    while i < |colors|
      invariant 0 <= i <= |colors|
      invariant errors == ColorEach(colors, i)
    {
      errors := errors + ColorEntryErrors(i, colors[i]);
      i := i + 1;
    }
  }

  /** The font section of `validateBrandKit`. */
  method CheckFonts(kit: PartialBrandKit) returns (errors: seq<ValidationError>)
    ensures errors == FontErrors(kit)
  {
    errors := [];
    if kit.fonts.None? || |kit.fonts.value| == 0 {
      errors := errors + [ValidationError("fonts", "At least one font is required", Warning)];
      return;
    }
    var fonts := kit.fonts.value;
    var i := 0;
    while i < |fonts|
      invariant 0 <= i <= |fonts|
      invariant errors == FontEach(fonts, i)
    {
      errors := errors + FontEntryErrors(i, fonts[i]);
      i := i + 1;
    }
  }

  /** `errors.filter(e => e.severity === 'error').length === 0` */
  method CountsNoErrors(errors: seq<ValidationError>) returns (valid: bool)
    ensures valid <==> NoErrors(errors)
  {
    var count := 0;
    var j := 0;
    while j < |errors|
      invariant 0 <= j <= |errors|
      invariant count == 0 <==> forall k :: 0 <= k < j ==> errors[k].severity != Error
    {
      count := count + if errors[j].severity == Error then 1 else 0;
      j := j + 1;
    }
    valid := count == 0;
  }

  // ---------------------------------------------------------------------------
  // What the reported entries mean
  // ---------------------------------------------------------------------------

  predicate ColorOk(color: BrandColor)
  {
    IsValidHexColor(color.hex) && !IsBlank(color.name)
  }

  predicate FontOk(font: BrandFont)
  {
    !IsBlank(font.name) && !IsBlank(font.family)
  }

  lemma NoErrorsAppend(a: seq<ValidationError>, b: seq<ValidationError>)
    ensures NoErrors(a + b) <==> NoErrors(a) && NoErrors(b)
  {
    if NoErrors(a) && NoErrors(b) {
      forall i | 0 <= i < |a + b| ensures (a + b)[i].severity != Error {
        if i >= |a| { assert (a + b)[i] == b[i - |a|]; }
      }
    }
    if NoErrors(a + b) {
      forall i | 0 <= i < |a| ensures a[i].severity != Error {
        assert (a + b)[i] == a[i];
      }
      forall i | 0 <= i < |b| ensures b[i].severity != Error {
        assert (a + b)[|a| + i] == b[i];
      }
    }
  }

  lemma {:induction false} ColorEachNoErrors(colors: seq<BrandColor>, n: nat)
    requires n <= |colors|
    ensures NoErrors(ColorEach(colors, n)) <==> forall i :: 0 <= i < n ==> ColorOk(colors[i])
  {
    if n > 0 {
      ColorEachNoErrors(colors, n - 1);
      var e := ColorEntryErrors(n - 1, colors[n - 1]);
      NoErrorsAppend(ColorEach(colors, n - 1), e);
      assert NoErrors(e) <==> ColorOk(colors[n - 1]) by {
        if !ColorOk(colors[n - 1]) { assert e[0].severity == Error; }
      }
    }
  }

  lemma {:induction false} FontEachNoErrors(fonts: seq<BrandFont>, n: nat)
    requires n <= |fonts|
    ensures NoErrors(FontEach(fonts, n)) <==> forall i :: 0 <= i < n ==> FontOk(fonts[i])
  {
    if n > 0 {
      FontEachNoErrors(fonts, n - 1);
      var e := FontEntryErrors(n - 1, fonts[n - 1]);
      NoErrorsAppend(FontEach(fonts, n - 1), e);
      assert NoErrors(e) <==> FontOk(fonts[n - 1]) by {
        if !FontOk(fonts[n - 1]) { assert e[0].severity == Error; }
      }
    }
  }

  /** A kit is valid exactly when it has a non-blank name, at least one colour,
      every colour has a valid hex value and a non-blank name, and every listed
      font has a non-blank name and family. Warnings (no primary colour, low
      contrast, no fonts, no weights, no logo, no guidelines) never make a kit
      invalid. */
  lemma ValidIff(kit: PartialBrandKit, goodContrast: (string, string) -> bool)
    ensures NoErrors(ValidationErrors(kit, goodContrast)) <==>
      && kit.name.Some? && !IsBlank(kit.name.value)
      && kit.colors.Some? && |kit.colors.value| > 0
      && (forall i :: 0 <= i < |kit.colors.value| ==> ColorOk(kit.colors.value[i]))
      && (kit.fonts.Some? ==> forall i :: 0 <= i < |kit.fonts.value| ==> FontOk(kit.fonts.value[i]))
  {
    var n, c, f, l, g := NameErrors(kit), ColorErrors(kit, goodContrast), FontErrors(kit), LogoErrors(kit), GuidelineErrors(kit);
    NoErrorsAppend(n, c);
    NoErrorsAppend(n + c, f);
    NoErrorsAppend(n + c + f, l);
    NoErrorsAppend(n + c + f + l, g);
    NameNoErrors(kit);
    ColorsNoErrors(kit, goodContrast);
    FontsNoErrors(kit);
  }

  lemma NameNoErrors(kit: PartialBrandKit)
    ensures NoErrors(NameErrors(kit)) <==> kit.name.Some? && !IsBlank(kit.name.value)
  {
    if !(kit.name.Some? && !IsBlank(kit.name.value)) {
      assert NameErrors(kit)[0].severity == Error;
    }
  }

  lemma ColorsNoErrors(kit: PartialBrandKit, goodContrast: (string, string) -> bool)
    ensures NoErrors(ColorErrors(kit, goodContrast)) <==>
      kit.colors.Some? && |kit.colors.value| > 0
      && forall i :: 0 <= i < |kit.colors.value| ==> ColorOk(kit.colors.value[i])
  {
    if kit.colors.Some? && |kit.colors.value| > 0 {
      var colors := kit.colors.value;
      var p := if !HasUsage(colors, Primary)
        then [ValidationError("colors", "Brand kit should have a primary color", Warning)] else [];
      NoErrorsAppend(p, ColorEach(colors, |colors|));
      NoErrorsAppend(p + ColorEach(colors, |colors|), ContrastErrors(colors, goodContrast));
      ColorEachNoErrors(colors, |colors|);
    } else {
      assert ColorErrors(kit, goodContrast)[0].severity == Error;
    }
  }

  lemma FontsNoErrors(kit: PartialBrandKit)
    ensures NoErrors(FontErrors(kit)) <==>
      kit.fonts.Some? ==> forall i :: 0 <= i < |kit.fonts.value| ==> FontOk(kit.fonts.value[i])
  {
    if kit.fonts.Some? && |kit.fonts.value| > 0 {
      FontEachNoErrors(kit.fonts.value, |kit.fonts.value|);
    }
  }

  /** An invalid hex value of colour i is reported on `colors[i].hex` with the value in the message. */
  lemma InvalidHexReported(kit: PartialBrandKit, goodContrast: (string, string) -> bool, i: nat)
    requires kit.colors.Some? && i < |kit.colors.value|
    requires !IsValidHexColor(kit.colors.value[i].hex)
    ensures ValidationError(ColorField(i, "hex"), "Invalid hex color: " + kit.colors.value[i].hex, Error)
      in ValidationErrors(kit, goodContrast)
  {
    var colors := kit.colors.value;
    var e := ValidationError(ColorField(i, "hex"), "Invalid hex color: " + colors[i].hex, Error);
    assert e == ColorEntryErrors(i, colors[i])[0];
    ColorEachHas(colors, |colors|, i);
    assert e in ColorEach(colors, |colors|);
    assert e in ColorErrors(kit, goodContrast);
  }

  lemma {:induction false} ColorEachHas(colors: seq<BrandColor>, n: nat, i: nat)
    requires i < n <= |colors|
    ensures forall e :: e in ColorEntryErrors(i, colors[i]) ==> e in ColorEach(colors, n)
  {
    if i < n - 1 {
      ColorEachHas(colors, n - 1, i);
    }
  }

  /** Distinct list entries are reported on distinct fields. */
  lemma IndexedFieldsDistinct(list: string, i: nat, j: nat, part: string)
    requires i != j
    ensures IndexedField(list, i, part) != IndexedField(list, j, part)
  {
    var a, b := NatToString(i, 10), NatToString(j, 10);
    ParseNatToString(i, 10);
    ParseNatToString(j, 10);
    var x, y := IndexedField(list, i, part), IndexedField(list, j, part);
    var k := |list| + 1;
    assert x[k..] == a + ("]." + part);
    assert y[k..] == b + ("]." + part);
    if x == y {
      DigitsBeforeBracket(a, b, "]." + part);
    }
  }

  /** Two digit strings followed by the same `]`-led text are equal. */
  lemma {:induction false} DigitsBeforeBracket(a: string, b: string, rest: string)
    requires (forall k :: 0 <= k < |a| ==> IsHexDigit(a[k])) && (forall k :: 0 <= k < |b| ==> IsHexDigit(b[k]))
    requires |rest| > 0 && rest[0] == ']'
    requires a + rest == b + rest
    ensures a == b
  {
    var m := if |a| <= |b| then |a| else |b|;
    assert (a + rest)[m] == (b + rest)[m];
    assert |a| == |b|;
    assert a == (a + rest)[..|a|];
    assert b == (b + rest)[..|b|];
  }

  /** The low-contrast warning only appears when the kit has both a primary
      and a neutral colour (and the contrast check refused that pair). */
  lemma ContrastWarningNeedsBoth(kit: PartialBrandKit, goodContrast: (string, string) -> bool)
    requires LowContrast in ValidationErrors(kit, goodContrast)
    ensures kit.colors.Some? && HasUsage(kit.colors.value, Primary) && HasUsage(kit.colors.value, Neutral)
    ensures !goodContrast(FindUsage(kit.colors.value, Primary).value.hex, FindUsage(kit.colors.value, Neutral).value.hex)
  {
    var es := ValidationErrors(kit, goodContrast);
    assert LowContrast !in NameErrors(kit);
    assert LowContrast !in FontErrors(kit) by { FontEachNoContrast(kit); }
    assert LowContrast !in LogoErrors(kit) + GuidelineErrors(kit);
    assert LowContrast in ColorErrors(kit, goodContrast);
    var colors := kit.colors.value;
    ColorEachNoContrast(colors, |colors|);
  }

  lemma FontEachNoContrast(kit: PartialBrandKit)
    ensures LowContrast !in FontErrors(kit)
  {
    if kit.fonts.Some? && |kit.fonts.value| > 0 {
      FontEachFields(kit.fonts.value, |kit.fonts.value|);
    }
  }

  lemma {:induction false} FontEachFields(fonts: seq<BrandFont>, n: nat)
    requires n <= |fonts|
    ensures forall e :: e in FontEach(fonts, n) ==> e.field != "colors"
  {
    if n > 0 {
      FontEachFields(fonts, n - 1);
      var i := n - 1;
      forall e | e in FontEntryErrors(i, fonts[i]) ensures e.field != "colors" {
        assert e.field[0] == 'f';
      }
    }
  }

  lemma {:induction false} ColorEachNoContrast(colors: seq<BrandColor>, n: nat)
    requires n <= |colors|
    ensures forall e :: e in ColorEach(colors, n) ==> e.severity == Error
  {
    if n > 0 {
      ColorEachNoContrast(colors, n - 1);
    }
  }

  // ---------------------------------------------------------------------------
  // lintBrandKit
  // ---------------------------------------------------------------------------

  const FewColors := ValidationError("colors", "Consider adding more colors (recommended: 3-7 colors)", Warning)
  const ManyColors := ValidationError("colors", "Too many colors may reduce brand consistency", Warning)
  const ManyFonts := ValidationError("fonts", "Using too many fonts can reduce visual cohesion", Warning)
  const ThinTone := ValidationError("tone", "Add a more detailed tone of voice description", Warning)

  /** `!brandKit.tone || brandKit.tone.split(' ').length < 10` */
  predicate ToneTooShort(tone: Option<string>)
  {
    tone.None? || tone.value == "" || |Split(tone.value, ' ')| < 10
  }

  /** Where a lint warning comes in check order: colours, fonts, then tone. */
  function LintRank(w: ValidationError): nat
  {
    if w == FewColors || w == ManyColors then 0
    else if w == ManyFonts then 1
    else 2
  }

  /** `lintBrandKit`: best-practice warnings, never errors, in check order. */
  method LintBrandKit(kit: BrandKit) returns (warnings: seq<ValidationError>)
    ensures forall i, j :: 0 <= i < j < |warnings| ==> LintRank(warnings[i]) < LintRank(warnings[j])
    ensures forall i :: 0 <= i < |warnings| ==> warnings[i].severity == Warning
    ensures |warnings| <= 3
    ensures FewColors in warnings <==> |kit.colors| < 3
    ensures ManyColors in warnings <==> |kit.colors| > 10
    ensures ManyFonts in warnings <==> |kit.fonts| > 3
    ensures ThinTone in warnings <==> ToneTooShort(kit.tone)
    ensures |warnings| == (if |kit.colors| < 3 || |kit.colors| > 10 then 1 else 0)
      + (if |kit.fonts| > 3 then 1 else 0) + (if ToneTooShort(kit.tone) then 1 else 0)
  {
    warnings := [];
    if |kit.colors| < 3 {
      warnings := warnings + [FewColors];
    }
    if |kit.colors| > 10 {
      warnings := warnings + [ManyColors];
    }
    if |kit.fonts| > 3 {
      warnings := warnings + [ManyFonts];
    }
    if ToneTooShort(kit.tone) {
      warnings := warnings + [ThinTone];
    }
  }

  /** A tone of ten or more space-separated words is detailed enough: the rule
      counts spaces, one piece more than there are. */
  lemma ToneRuleCountsSpaces(tone: string)
    requires tone != ""
    ensures !ToneTooShort(Some(tone)) <==> Count(tone, ' ') >= 9
  {
    SplitCount(tone, ' ');
  }
}
