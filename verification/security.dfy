/** The security helpers of src/utils/security.ts: HTML escaping, input
    sanitising, recursive log redaction with e-mail masking, the per-key
    sliding-window rate limiter, the SSRF guard and the CSP header. */
module Security {
  import opened Wrappers
  import opened JsString
  import opened JsValue

  // ---------------------------------------------------------------------------
  // HTML escaping
  // ---------------------------------------------------------------------------

  const Amp := "&amp;"
  const Lt := "&lt;"
  const Gt := "&gt;"
  const Quot := "&quot;"
  const Apos := "&#039;"

  /** One of the four characters that never survive escaping (`&` survives, as
      the head of an entity). */
  predicate IsMarkup(c: char) { c == '<' || c == '>' || c == '"' || c == '\'' }

  /** The entity that starts at index i of s. */
  predicate EntityAt(s: string, i: int)
  {
    OccursAt(s, Amp, i) || OccursAt(s, Lt, i) || OccursAt(s, Gt, i)
    || OccursAt(s, Quot, i) || OccursAt(s, Apos, i)
  }

  /** `s.replace(/c/g, rep)`: every occurrence of the character c replaced. */
  function ReplaceAll(s: string, c: char, rep: string): string
  {
    if s == [] then []
    else (if s[0] == c then rep else [s[0]]) + ReplaceAll(s[1..], c, rep)
  }

  lemma {:induction false} ReplaceAllAppend(s: string, t: string, c: char, rep: string)
    ensures ReplaceAll(s + t, c, rep) == ReplaceAll(s, c, rep) + ReplaceAll(t, c, rep)
  {
    if s == [] {
      assert s + t == t;
    } else {
      assert (s + t)[0] == s[0] && (s + t)[1..] == s[1..] + t;
      ReplaceAllAppend(s[1..], t, c, rep);
      var h := if s[0] == c then rep else [s[0]];
      assert h + (ReplaceAll(s[1..], c, rep) + ReplaceAll(t, c, rep))
          == (h + ReplaceAll(s[1..], c, rep)) + ReplaceAll(t, c, rep);
    }
  }

  /** `escapeHtml`: the five replacements, `&` first so that the entities the
      later ones insert are not escaped again. */
  function EscapeHtml(s: string): string
  {
    ReplaceAll(ReplaceAll(ReplaceAll(ReplaceAll(ReplaceAll(s, '&', Amp), '<', Lt), '>', Gt), '"', Quot), '\'', Apos)
  }

  /** The escape of one character: the reference the replacement chain is
      measured against. */
  function EscapeChar(c: char): string
  {
    if c == '&' then Amp
    else if c == '<' then Lt
    else if c == '>' then Gt
    else if c == '"' then Quot
    else if c == '\'' then Apos
    else [c]
  }

  /** Character-by-character escaping. */
  function EscapeEach(s: string): (r: string)
    ensures forall i :: 0 <= i < |r| ==> !IsMarkup(r[i])
    ensures (forall i :: 0 <= i < |s| ==> !IsMarkup(s[i]) && s[i] != '&') ==> r == s
  {
    if s == [] then [] else EscapeChar(s[0]) + EscapeEach(s[1..])
  }

  lemma ReplaceOne(x: char, c: char, rep: string)
    ensures ReplaceAll([x], c, rep) == if x == c then rep else [x]
  {
    assert ReplaceAll([x], c, rep) == (if x == c then rep else [x]) + ReplaceAll([], c, rep);
  }

  lemma ReplaceAbsent(s: string, c: char, rep: string)
    requires c !in s
    ensures ReplaceAll(s, c, rep) == s
  {
  }

  /** The replacements after the one that produced the entity e leave it alone. */
  lemma LaterReplacementsKeep(e: string)
    requires '<' !in e && '>' !in e && '"' !in e && '\'' !in e
    ensures ReplaceAll(ReplaceAll(ReplaceAll(ReplaceAll(e, '<', Lt), '>', Gt), '"', Quot), '\'', Apos) == e
  {
    ReplaceAbsent(e, '<', Lt);
    ReplaceAbsent(e, '>', Gt);
    ReplaceAbsent(e, '"', Quot);
    ReplaceAbsent(e, '\'', Apos);
  }

  lemma EscapeHtmlAmp()
    ensures EscapeHtml("&") == Amp
  {
    ReplaceOne('&', '&', Amp);
    LaterReplacementsKeep(Amp);
  }

  lemma EscapeHtmlLt()
    ensures EscapeHtml("<") == Lt
  {
    ReplaceOne('<', '&', Amp);
    ReplaceOne('<', '<', Lt);
    ReplaceAbsent(Lt, '>', Gt);
    ReplaceAbsent(Lt, '"', Quot);
    ReplaceAbsent(Lt, '\'', Apos);
  }

  lemma EscapeHtmlGt()
    ensures EscapeHtml(">") == Gt
  {
    ReplaceOne('>', '&', Amp);
    ReplaceOne('>', '<', Lt);
    ReplaceOne('>', '>', Gt);
    ReplaceAbsent(Gt, '"', Quot);
    ReplaceAbsent(Gt, '\'', Apos);
  }

  lemma EscapeHtmlQuot()
    ensures EscapeHtml("\"") == Quot
  {
    ReplaceOne('"', '&', Amp);
    ReplaceOne('"', '<', Lt);
    ReplaceOne('"', '>', Gt);
    ReplaceOne('"', '"', Quot);
    ReplaceAbsent(Quot, '\'', Apos);
  }

  lemma EscapeHtmlApos()
    ensures EscapeHtml("'") == Apos
  {
    ReplaceOne('\'', '&', Amp);
    ReplaceOne('\'', '<', Lt);
    ReplaceOne('\'', '>', Gt);
    ReplaceOne('\'', '"', Quot);
    ReplaceOne('\'', '\'', Apos);
  }

  lemma EscapeHtmlOne(c: char)
    ensures EscapeHtml([c]) == EscapeChar(c)
  {
    if c == '&' {
      EscapeHtmlAmp();
    } else if c == '<' {
      EscapeHtmlLt();
    } else if c == '>' {
      EscapeHtmlGt();
    } else if c == '"' {
      EscapeHtmlQuot();
    } else if c == '\'' {
      EscapeHtmlApos();
    } else {
      ReplaceOne(c, '&', Amp);
      ReplaceOne(c, '<', Lt);
      ReplaceOne(c, '>', Gt);
      ReplaceOne(c, '"', Quot);
      ReplaceOne(c, '\'', Apos);
    }
  }

  lemma {:induction false} EscapeHtmlAppend(s: string, t: string)
    ensures EscapeHtml(s + t) == EscapeHtml(s) + EscapeHtml(t)
  {
    var a := ReplaceAll(s, '&', Amp);
    var b := ReplaceAll(t, '&', Amp);
    ReplaceAllAppend(s, t, '&', Amp);
    var a2 := ReplaceAll(a, '<', Lt);
    var b2 := ReplaceAll(b, '<', Lt);
    ReplaceAllAppend(a, b, '<', Lt);
    var a3 := ReplaceAll(a2, '>', Gt);
    var b3 := ReplaceAll(b2, '>', Gt);
    ReplaceAllAppend(a2, b2, '>', Gt);
    var a4 := ReplaceAll(a3, '"', Quot);
    var b4 := ReplaceAll(b3, '"', Quot);
    ReplaceAllAppend(a3, b3, '"', Quot);
    ReplaceAllAppend(a4, b4, '\'', Apos);
  }

  /** The replacement chain escapes each character on its own. */
  lemma {:induction false} EscapeHtmlIsPerChar(s: string)
    ensures EscapeHtml(s) == EscapeEach(s)
  {
    if s != [] {
      assert s == [s[0]] + s[1..];
      EscapeHtmlAppend([s[0]], s[1..]);
      EscapeHtmlOne(s[0]);
      EscapeHtmlIsPerChar(s[1..]);
    }
  }

  lemma EntityShift(a: string, b: string, i: int)
    requires EntityAt(b, i)
    ensures EntityAt(a + b, |a| + i)
  {
    var r := a + b;
    forall e: string | OccursAt(b, e, i) ensures OccursAt(r, e, |a| + i) {
      assert r[|a| + i..|a| + i + |e|] == b[i..i + |e|];
    }
  }

  lemma EntityHead(e: string, b: string)
    requires e == Amp || e == Lt || e == Gt || e == Quot || e == Apos
    ensures EntityAt(e + b, 0)
  {
    assert (e + b)[0..|e|] == e;
  }

  /** Every `&` of an escaped string starts one of the five entities. */
  lemma {:induction false} EscapeEachAmpersands(s: string)
    ensures forall i :: 0 <= i < |EscapeEach(s)| && EscapeEach(s)[i] == '&' ==> EntityAt(EscapeEach(s), i)
  {
    if s != [] {
      EscapeEachAmpersands(s[1..]);
      var t := EscapeEach(s[1..]);
      assert EscapeEach(s) == EscapeChar(s[0]) + t;
      forall i | 0 <= i < |EscapeChar(s[0]) + t| && (EscapeChar(s[0]) + t)[i] == '&'
        ensures EntityAt(EscapeChar(s[0]) + t, i)
      {
        AmpersandStep(s[0], t, i);
      }
    }
  }

  /** An `&` after one escaped character sits in that character's escape,
      which is then an entity, or in the rest, whose ampersands start entities. */
  lemma AmpersandStep(c: char, t: string, i: int)
    requires 0 <= i < |EscapeChar(c) + t| && (EscapeChar(c) + t)[i] == '&'
    requires forall k :: 0 <= k < |t| && t[k] == '&' ==> EntityAt(t, k)
    ensures EntityAt(EscapeChar(c) + t, i)
  {
    var h := EscapeChar(c);
    if i < |h| {
      assert i == 0 && h != [c];
      EntityHead(h, t);
    } else {
      assert t[i - |h|] == '&';
      EntityShift(h, t, i - |h|);
    }
  }

  /** `escapeHtml` leaves none of `< > " '`, every `&` in its output starts an
      entity, and text without the five characters is returned unchanged. */
  lemma EscapeHtmlSafe(s: string)
    ensures forall i :: 0 <= i < |EscapeHtml(s)| ==> !IsMarkup(EscapeHtml(s)[i])
    ensures forall i :: 0 <= i < |EscapeHtml(s)| && EscapeHtml(s)[i] == '&' ==> EntityAt(EscapeHtml(s), i)
    ensures (forall i :: 0 <= i < |s| ==> !IsMarkup(s[i]) && s[i] != '&') ==> EscapeHtml(s) == s
  {
    EscapeHtmlIsPerChar(s);
    EscapeEachAmpersands(s);
  }

  /** Reading the five entities back. */
  function UnescapeHtml(r: string): string
  {
    if r == [] then []
    else if StartsWith(r, Amp) then "&" + UnescapeHtml(r[|Amp|..])
    else if StartsWith(r, Lt) then "<" + UnescapeHtml(r[|Lt|..])
    else if StartsWith(r, Gt) then ">" + UnescapeHtml(r[|Gt|..])
    else if StartsWith(r, Quot) then "\"" + UnescapeHtml(r[|Quot|..])
    else if StartsWith(r, Apos) then "'" + UnescapeHtml(r[|Apos|..])
    else [r[0]] + UnescapeHtml(r[1..])
  }

  lemma UnescapeOne(c: char, t: string)
    ensures UnescapeHtml(EscapeChar(c) + t) == [c] + UnescapeHtml(t)
  {
    var e := EscapeChar(c);
    var r := e + t;
    assert r[..|e|] == e && r[|e|..] == t;
    if c != '&' && !IsMarkup(c) {
      assert r[0] == c && r[1..] == t;
      assert !StartsWith(r, Amp) && !StartsWith(r, Lt) && !StartsWith(r, Gt);
      assert !StartsWith(r, Quot) && !StartsWith(r, Apos);
    } else {
      assert r[1] == e[1];
      assert StartsWith(r, e);
    }
  }

  /** Escaping loses nothing: unescaping gives the input back. */
  lemma {:induction false} UnescapeEscapeHtml(s: string)
    ensures UnescapeHtml(EscapeHtml(s)) == s
  {
    EscapeHtmlIsPerChar(s);
    UnescapeEach(s);
  }

  lemma {:induction false} UnescapeEach(s: string)
    ensures UnescapeHtml(EscapeEach(s)) == s
  {
    if s != [] {
      UnescapeOne(s[0], EscapeEach(s[1..]));
      UnescapeEach(s[1..]);
    }
  }

  /** `sanitizeUserInput`: the script, event-handler and `javascript:` removal
      (a regular-expression pass given here as `stripDangerous`), then
      `escapeHtml`. Whatever the first pass leaves, the output carries no markup. */
  function SanitizeUserInput(input: string, stripDangerous: string -> string): (r: string)
    ensures forall i :: 0 <= i < |r| ==> !IsMarkup(r[i])
    ensures r == EscapeHtml(stripDangerous(input))
  {
    EscapeHtmlIsPerChar(stripDangerous(input));
    EscapeHtml(stripDangerous(input))
  }

  // ---------------------------------------------------------------------------
  // Sensitive keys
  // ---------------------------------------------------------------------------

  /** The number of `SENSITIVE_PATTERNS`. */
  const PatternCount := 10

  /** `SENSITIVE_PATTERNS[j]`, written out as the lower-case words it matches
      (`[_-]?` gives three spellings, the separator ones first). */
  function Pattern(j: nat): (ws: seq<string>)
    requires j < PatternCount
    ensures 1 <= |ws| <= 3
    ensures forall k, m :: 0 <= k < |ws| && 0 <= m < |ws[k]| ==> ws[k][m] as int < 0x80
  {
    if j == 0 then ["password"]
    else if j == 1 then ["token"]
    else if j == 2 then ["secret"]
    else if j == 3 then ["api_key", "api-key", "apikey"]
    else if j == 4 then ["access_token", "access-token", "accesstoken"]
    else if j == 5 then ["refresh_token", "refresh-token", "refreshtoken"]
    else if j == 6 then ["authorization"]
    else if j == 7 then ["credit_card", "credit-card", "creditcard"]
    else if j == 8 then ["ssn"]
    else ["social_security", "social-security", "socialsecurity"]
  }

  /** A spelling of pattern j occurs in the code units u at index i. */
  predicate PatternAt(u: seq<int>, j: nat, i: int)
    requires j < PatternCount
  {
    exists k | 0 <= k < |Pattern(j)| :: OccursAt(u, CharValues(Pattern(j)[k]), i)
  }

  /** The patterns' words are ASCII, so their characters are their code units. */
  lemma PatternCodeUnits(j: nat, k: nat)
    requires j < PatternCount && k < |Pattern(j)|
    ensures CharValues(Pattern(j)[k]) == CodeUnits(Pattern(j)[k])
  {
    CodeUnitsBmp(Pattern(j)[k]);
  }

  /** What the patterns are matched against: the UTF-16 code units of the key,
      ASCII letters lower-cased (the `i` flag; without the `u` flag no
      non-ASCII character folds onto an ASCII letter, and indices count code
      units). */
  function KeyUnits(key: string): (u: seq<int>)
    ensures |u| == |CodeUnits(key)|
  {
    CodeUnitsToLowerLength(key);
    CodeUnits(ToLower(key))
  }

  /** `isSensitiveKey` as its patterns mean it: some pattern occurs in the key,
      ignoring ASCII case. */
  predicate IsSensitiveKey(key: string)
  {
    exists j, i | 0 <= j < PatternCount && 0 <= i <= |KeyUnits(key)| :: PatternAt(KeyUnits(key), j, i)
  }

  /** Where the match of pattern j found at index i ends: the spelling that
      matches there (the optional separator is tried first). */
  function MatchEnd(u: seq<int>, j: nat, i: nat): (e: nat)
    requires j < PatternCount && PatternAt(u, j, i)
    ensures i < e <= |u|
  {
    var ws := Pattern(j);
    if OccursAt(u, CharValues(ws[0]), i) then i + |ws[0]|
    else if OccursAt(u, CharValues(ws[1]), i) then i + |ws[1]|
    else i + |ws[2]|
  }

  /** The first match of pattern j at a code-unit index from `from` on, as
      the index just past it. */
  function SearchFrom(u: seq<int>, j: nat, from: nat): (r: Option<nat>)
    requires j < PatternCount
    ensures r.None? <==> forall i :: from <= i <= |u| ==> !PatternAt(u, j, i)
    decreases |u| + 1 - from
  {
    if from > |u| then None
    else if PatternAt(u, j, from) then Some(MatchEnd(u, j, from))
    else SearchFrom(u, j, from + 1)
  }

  /** `pattern.test(key)` for a regular expression with the `g` flag: the
      search starts at the pattern's `lastIndex`, a code-unit index, which a
      match moves past the match and a miss resets to 0. */
  function TestGlobal(key: string, j: nat, lastIndex: nat): (r: (bool, nat))
    requires j < PatternCount
    ensures !r.0 ==> r.1 == 0
  {
    var u := KeyUnits(key);
    if lastIndex > |u| then (false, 0)
    else match SearchFrom(u, j, lastIndex)
      case Some(e) => (true, e)
      case None => (false, 0)
  }

  /** `isSensitiveKey` as written: `some` over the shared global patterns,
      threading their `lastIndex` values from one call to the next. */
  function IsSensitiveKeyAsWritten(key: string, lastIndex: seq<nat>): (r: (bool, seq<nat>))
    requires |lastIndex| == PatternCount
    ensures |r.1| == PatternCount
  {
    TestFrom(key, lastIndex, 0)
  }

  function TestFrom(key: string, lastIndex: seq<nat>, j: nat): (r: (bool, seq<nat>))
    requires |lastIndex| == PatternCount && j <= PatternCount
    ensures |r.1| == PatternCount
    decreases PatternCount - j
  {
    if j == PatternCount then (false, lastIndex)
    else
      var t := TestGlobal(key, j, lastIndex[j]);
      if t.0 then (true, lastIndex[j := t.1])
      else TestFrom(key, lastIndex[j := t.1], j + 1)
  }

  /** From freshly compiled patterns, the as-written test gives the intended
      answer. */
  lemma FreshPatternsAgree(key: string)
    ensures IsSensitiveKeyAsWritten(key, seq(PatternCount, _ => 0)).0 == IsSensitiveKey(key)
  {
    var z: seq<nat> := seq(PatternCount, _ => 0);
    TestFromFresh(key, z, 0);
  }

  lemma {:induction false} TestFromFresh(key: string, st: seq<nat>, j: nat)
    requires |st| == PatternCount && j <= PatternCount
    requires forall k :: j <= k < |st| ==> st[k] == 0
    ensures TestFrom(key, st, j).0 <==>
      exists j', i | j <= j' < PatternCount && 0 <= i <= |KeyUnits(key)| :: PatternAt(KeyUnits(key), j', i)
    decreases PatternCount - j
  {
    if j < PatternCount {
      var u := KeyUnits(key);
      var t := TestGlobal(key, j, 0);
      TestFromFresh(key, st[j := t.1], j + 1);
      if !t.0 {
        assert forall i :: 0 <= i <= |u| ==> !PatternAt(u, j, i);
      } else {
        var i :| 0 <= i <= |u| && PatternAt(u, j, i);
      }
    }
  }

  lemma OccursHas(u: seq<int>, w: string, i: int, c: char)
    requires c in w
    ensures OccursAt(u, CharValues(w), i) ==> c as int in u
  {
    if OccursAt(u, CharValues(w), i) {
      var k :| 0 <= k < |w| && w[k] == c;
      assert CharValues(w)[k] == c as int;
      assert u[i..i + |w|][k] == c as int;
    }
  }

  /** A word holding a character the key lacks occurs nowhere in it. */
  lemma AbsentPattern(u: seq<int>, j: nat, c: char)
    requires j < PatternCount && c as int !in u
    requires forall k :: 0 <= k < |Pattern(j)| ==> c in Pattern(j)[k]
    ensures forall i :: !PatternAt(u, j, i)
  {
    forall i, k | 0 <= k < |Pattern(j)| {
      OccursHas(u, Pattern(j)[k], i, c);
    }
  }

  lemma {:induction false} TestFromMiss(key: string, st: seq<nat>, j: nat)
    requires |st| == PatternCount && j <= PatternCount
    requires forall k :: j <= k < PatternCount ==> !TestGlobal(key, k, st[k]).0
    ensures !TestFrom(key, st, j).0
    decreases PatternCount - j
  {
    if j < PatternCount {
      TestFromMiss(key, st[j := 0], j + 1);
    }
  }

  /** The code units of a key of lower-case ASCII characters are its characters. */
  lemma LowerAsciiKey(key: string)
    requires forall k :: 0 <= k < |key| ==> key[k] as int < 0x80 && !IsAsciiUpper(key[k])
    ensures KeyUnits(key) == CharValues(key)
  {
    assert ToLower(key) == key;
    CodeUnitsBmp(key);
  }

  /** A fresh test of `password` matches the first pattern and leaves its
      `lastIndex` at 8. */
  lemma PasswordFirstTest()
    ensures IsSensitiveKeyAsWritten("password", seq(PatternCount, _ => 0))
         == (true, seq(PatternCount, _ => 0)[0 := 8])
  {
    var s := "password";
    LowerAsciiKey(s);
    assert OccursAt(KeyUnits(s), CharValues(Pattern(0)[0]), 0);
    assert PatternAt(KeyUnits(s), 0, 0);
  }

  /** Every pattern but the first has, in each spelling, one of the letters
      t, i, f, n or c; a key without them matches none of those patterns. */
  lemma MissesOtherPatterns(u: seq<int>, j: nat)
    requires 1 <= j < PatternCount
    requires forall x :: x in u ==> x !in {'t' as int, 'i' as int, 'f' as int, 'n' as int, 'c' as int}
    ensures forall i :: !PatternAt(u, j, i)
  {
    var c := if j == 1 || j == 6 then 't' else if j == 3 then 'i' else if j == 5 then 'f'
             else if j == 8 then 'n' else 'c';
    assert forall k :: 0 <= k < |Pattern(j)| ==> c in Pattern(j)[k];
    AbsentPattern(u, j, c);
  }

  /** With the first pattern's `lastIndex` at 8, `password` matches nothing. */
  lemma PasswordSecondTest(st: seq<nat>)
    requires |st| == PatternCount && st[0] == 8
    requires forall k :: 1 <= k < PatternCount ==> st[k] == 0
    ensures !IsSensitiveKeyAsWritten("password", st).0
  {
    var u := KeyUnits("password");
    LowerAsciiKey("password");
    forall j | 1 <= j < PatternCount ensures !TestGlobal("password", j, st[j]).0 {
      MissesOtherPatterns(u, j);
      assert SearchFrom(u, j, 0).None?;
    }
    TestFromMiss("password", st, 0);
  }

  /** The `lastIndex` a match leaves behind makes the next test of the same
      key fail: logging `{password: ...}` twice redacts the value only the
      first time. */
  lemma StaleLastIndexMissesKey()
    ensures IsSensitiveKey("password")
    ensures IsSensitiveKeyAsWritten("password", seq(PatternCount, _ => 0)).0
    ensures !IsSensitiveKeyAsWritten("password",
              IsSensitiveKeyAsWritten("password", seq(PatternCount, _ => 0)).1).0
  {
    PasswordFirstTest();
    PasswordSecondTest(seq(PatternCount, _ => 0)[0 := 8]);
    FreshPatternsAgree("password");
  }

  /** `lastIndex` counts code units: a key with an astral character before
      `password` leaves the first pattern at 10, not at the 9 characters read,
      and the next key, whose `password` starts at code unit 9, is then missed
      although it holds the word. */
  lemma AstralKeyMovesLastIndex()
    ensures IsSensitiveKeyAsWritten("\U{1F600}" + "password", seq(PatternCount, _ => 0))
         == (true, seq(PatternCount, _ => 0)[0 := 10])
    ensures IsSensitiveKey("123456789" + "password")
    ensures !IsSensitiveKeyAsWritten("123456789" + "password", seq(PatternCount, _ => 0)[0 := 10]).0
  {
    AstralFirstTest();
    DigitsKeySensitive();
    DigitsKeyMissedFrom10();
  }

  /** The second key holds `password`, at code unit 9. */
  lemma DigitsKeySensitive()
    ensures IsSensitiveKey("123456789" + "password")
  {
    var n, p := "123456789", "password";
    assert (n + p)[9..17] == p;
    DigitsKeyUnits();
    CharValuesSlice(n + p, 9, 17);
    PasswordAtSensitive(n + p, 9);
  }

  /** With the first pattern's `lastIndex` at 10, the second key matches nothing. */
  lemma DigitsKeyMissedFrom10()
    ensures !IsSensitiveKeyAsWritten("123456789" + "password", seq(PatternCount, _ => 0)[0 := 10]).0
  {
    DigitsKeyUnits();
    DigitsKeyLetters();
    ShortKeyMissedFrom10("123456789" + "password");
  }

  /** A key holding `password` anywhere is sensitive. */
  lemma PasswordAtSensitive(key: string, i: int)
    requires OccursAt(KeyUnits(key), CharValues("password"), i)
    ensures IsSensitiveKey(key)
  {
    assert Pattern(0)[0] == "password";
    assert PatternAt(KeyUnits(key), 0, i);
  }

  /** A key of fewer than 18 code units without the letters t, i, f, n, c
      matches nothing once the first pattern's `lastIndex` is 10: `password`
      would have to end past the key. */
  lemma ShortKeyMissedFrom10(key: string)
    requires |KeyUnits(key)| < 18
    requires forall x :: x in KeyUnits(key) ==> x !in {'t' as int, 'i' as int, 'f' as int, 'n' as int, 'c' as int}
    ensures !IsSensitiveKeyAsWritten(key, seq(PatternCount, _ => 0)[0 := 10]).0
  {
    var u := KeyUnits(key);
    var st: seq<nat> := seq(PatternCount, _ => 0)[0 := 10];
    forall j | 1 <= j < PatternCount ensures !TestGlobal(key, j, st[j]).0 {
      MissesOtherPatterns(u, j);
      assert SearchFrom(u, j, 0).None?;
    }
    assert !TestGlobal(key, 0, 10).0 by {
      assert |CharValues(Pattern(0)[0])| == 8;
      assert SearchFrom(u, 0, 10).None?;
    }
    TestFromMiss(key, st, 0);
  }

  /** The first half of the example above: the search over the astral key. */
  lemma AstralFirstTest()
    ensures IsSensitiveKeyAsWritten("\U{1F600}" + "password", seq(PatternCount, _ => 0))
         == (true, seq(PatternCount, _ => 0)[0 := 10])
  {
    var u := KeyUnits("\U{1F600}" + "password");
    AstralKeyUnits();
    assert Pattern(0) == ["password"];
    var w := CharValues(Pattern(0)[0]);
    assert !OccursAt(u, w, 0) && !OccursAt(u, w, 1) && OccursAt(u, w, 2) by {
      assert u[0] != w[0] && u[1] != w[0];
      assert u[2..10] == w;
    }
    assert !PatternAt(u, 0, 0) && !PatternAt(u, 0, 1) && PatternAt(u, 0, 2);
    assert MatchEnd(u, 0, 2) == 10;
    assert SearchFrom(u, 0, 2) == Some(10);
    assert SearchFrom(u, 0, 1) == Some(10);
  }

  /** The second key is lower-case ASCII: one code unit per character. */
  lemma DigitsKeyUnits()
    ensures KeyUnits("123456789" + "password") == CharValues("123456789" + "password")
  {
    var d := "123456789" + "password";
    assert forall k :: 0 <= k < |d| ==> d[k] as int < 0x80 && !IsAsciiUpper(d[k]);
    LowerAsciiKey(d);
  }

  /** The second key has none of the letters t, i, f, n, c. */
  lemma DigitsKeyLetters()
    ensures forall x :: x in CharValues("123456789" + "password") ==>
              x !in {'t' as int, 'i' as int, 'f' as int, 'n' as int, 'c' as int}
  {
    var n, p := "123456789", "password";
    var d := n + p;
    assert forall k :: 0 <= k < |n| ==> '1' <= n[k] <= '9';
    assert forall k :: 0 <= k < |p| ==> p[k] !in "tifnc";
    var u := CharValues(d);
    forall x | x in u ensures x !in {'t' as int, 'i' as int, 'f' as int, 'n' as int, 'c' as int} {
      var k :| 0 <= k < |u| && u[k] == x;
      if k < |n| { assert d[k] == n[k]; } else { assert d[k] == p[k - |n|]; }
    }
  }

  /** The emoji is a surrogate pair, so `password` starts at code unit 2. */
  lemma AstralKeyUnits()
    ensures KeyUnits("\U{1F600}" + "password") == [0xD83D, 0xDE00] + CharValues("password")
  {
    var e, p := "\U{1F600}", "password";
    assert ToLower(e) == e;
    assert forall k :: 0 <= k < |p| ==> p[k] as int < 0x80 && !IsAsciiUpper(p[k]);
    assert ToLower(p) == p;
    ToLowerAppend(e, p);
    CodeUnitsAppend(e, p);
    CodeUnitsBmp(p);
    EmojiUnits();
  }

  /** U+1F600 is the surrogate pair D83D DE00. */
  lemma EmojiUnits()
    ensures CodeUnits("\U{1F600}") == [0xD83D, 0xDE00]
  {
    var e := "\U{1F600}";
    assert CodeUnits(e) == Utf16(e[0]) by { assert e[..0] == []; }
    var v := e[0] as int;
    assert v == 0x1F600;
    assert (v - 0x1_0000) / 0x400 == 0x3D && (v - 0x1_0000) % 0x400 == 0x200;
  }

  // ---------------------------------------------------------------------------
  // E-mail masking (`EMAIL_PATTERN` with a replacement callback)
  // ---------------------------------------------------------------------------

  /** `[a-zA-Z0-9._%+-]` */
  predicate IsLocalChar(c: char)
  {
    IsAsciiLetter(c) || IsDigit(c) || c == '.' || c == '_' || c == '%' || c == '+' || c == '-'
  }

  /** `[a-zA-Z0-9.-]` */
  predicate IsDomainChar(c: char) { IsAsciiLetter(c) || IsDigit(c) || c == '.' || c == '-' }

  /** The end of the longest run of characters satisfying p from index i on. */
  function RunEnd(s: string, i: nat, p: char -> bool): (j: nat)
    requires i <= |s|
    ensures i <= j <= |s|
    ensures forall k :: i <= k < j ==> p(s[k])
    ensures j < |s| ==> !p(s[j])
    decreases |s| - i
  {
    if i == |s| || !p(s[i]) then i else RunEnd(s, i + 1, p)
  }

  /** `\.[a-zA-Z]{2,}` can start at k. */
  predicate TldAt(s: string, k: nat)
  {
    k + 2 < |s| && s[k] == '.' && IsAsciiLetter(s[k + 1]) && IsAsciiLetter(s[k + 2])
  }

  /** Backtracking the greedy domain run `[a-zA-Z0-9.-]+` that starts at lo:
      the largest k with lo < k <= hi at which the top-level-domain suffix can
      start. */
  function LastTld(s: string, lo: nat, hi: nat): (r: Option<nat>)
    ensures r.Some? ==> lo < r.value <= hi && TldAt(s, r.value)
    ensures r.None? ==> forall k :: lo < k <= hi ==> !TldAt(s, k)
    ensures r.Some? ==> forall k :: r.value < k <= hi ==> !TldAt(s, k)
    decreases hi
  {
    if hi <= lo then None
    else if TldAt(s, hi) then Some(hi)
    else LastTld(s, lo, hi - 1)
  }

  /** The end of the `EMAIL_PATTERN` match that starts at index i, if any. */
  function EmailMatchAt(s: string, i: nat): (r: Option<nat>)
    requires i <= |s|
    ensures r.Some? ==> i < r.value <= |s|
  {
    var at := RunEnd(s, i, IsLocalChar);
    if at == i || at == |s| || s[at] != '@' then None
    else
      var e := RunEnd(s, at + 1, IsDomainChar);
      match LastTld(s, at + 1, e)
      case None => None
      case Some(k) => Some(RunEnd(s, k + 1, IsAsciiLetter))
  }

  /** A match is a local part, one `@` and a domain, neither holding `@`. */
  lemma EmailMatchShape(s: string, i: nat) returns (at: nat)
    requires i <= |s| && EmailMatchAt(s, i).Some?
    ensures var t := EmailMatchAt(s, i).value;
      i < at < t && s[at] == '@'
        && (forall k :: i <= k < t && k != at ==> s[k] != '@')
        && (forall k :: at < k < t ==> IsDomainChar(s[k]))
  {
    at := RunEnd(s, i, IsLocalChar);
    var e := RunEnd(s, at + 1, IsDomainChar);
    var k := LastTld(s, at + 1, e).value;
    var t := RunEnd(s, k + 1, IsAsciiLetter);
    assert IsDomainChar(s[k]);
    assert k < e;
    assert forall m :: k < m < t ==> IsDomainChar(s[m]);
    assert t <= e;
    assert s[at] == '@';
  }

  /** The callback: `local.substring(0, 2) + "***"` (or `"***"`) `@ domain`, and
      `"***@invalid"` when the match does not split into exactly two parts. */
  function MaskEmail(email: string): string
  {
    var parts := Split(email, '@');
    if |parts| != 2 then "***@invalid"
    else (if |parts[0]| >= 2 then parts[0][..2] + "***" else "***") + "@" + parts[1]
  }

  lemma {:induction false} SplitAtOnly(a: string, b: string)
    requires '@' !in a && '@' !in b
    ensures Split(a + "@" + b, '@') == [a, b]
  {
    if a == [] {
      assert a + "@" + b == ['@'] + b;
      SplitNone(b);
    } else {
      var s := a + "@" + b;
      assert s[0] == a[0] && s[1..] == a[1..] + "@" + b;
      SplitAtOnly(a[1..], b);
      assert [a[0]] + a[1..] == a;
    }
  }

  lemma {:induction false} SplitNone(b: string)
    requires '@' !in b
    ensures Split(b, '@') == [b]
  {
    if b != [] {
      SplitNone(b[1..]);
      assert [b[0]] + b[1..] == b;
    }
  }

  /** The masked form keeps the domain and at most the first two characters of
      the local part; the `"***@invalid"` branch is never taken on a match. */
  lemma MaskEmailKeepsDomain(local: string, domain: string)
    requires '@' !in local && '@' !in domain
    ensures MaskEmail(local + "@" + domain)
         == (if |local| >= 2 then local[..2] else "") + "***@" + domain
  {
    SplitAtOnly(local, domain);
  }

  /** `str.replace(EMAIL_PATTERN, mask)` from index p on: the leftmost match
      is masked and the scan resumes after it. */
  function RedactEmailsFrom(s: string, p: nat): (r: string)
    requires p <= |s|
    decreases |s| - p
  {
    if p == |s| then []
    else match EmailMatchAt(s, p)
      case Some(t) => MaskEmail(s[p..t]) + RedactEmailsFrom(s, t)
      case None => [s[p]] + RedactEmailsFrom(s, p + 1)
  }

  function RedactEmails(s: string): string
  {
    RedactEmailsFrom(s, 0)
  }

  lemma {:induction false} RedactNoAtFrom(s: string, p: nat)
    requires p <= |s| && '@' !in s
    ensures RedactEmailsFrom(s, p) == s[p..]
    decreases |s| - p
  {
    if p < |s| {
      var at := RunEnd(s, p, IsLocalChar);
      assert at < |s| ==> s[at] != '@';
      RedactNoAtFrom(s, p + 1);
      assert s[p..] == [s[p]] + s[p + 1..];
    }
  }

  /** Text without `@` holds no e-mail address and passes unchanged. */
  lemma RedactNoAt(s: string)
    requires '@' !in s
    ensures RedactEmails(s) == s
  {
    RedactNoAtFrom(s, 0);
  }

  /** `sanitizeString`: e-mail masking, then the card-number and JWT
      replacements, given here as `redactTokens`. */
  function SanitizeString(s: string, redactTokens: string -> string): (r: string)
    ensures '@' !in s ==> r == redactTokens(s)
  {
    if '@' !in s then RedactNoAt(s); redactTokens(RedactEmails(s))
    else redactTokens(RedactEmails(s))
  }

  /** Every e-mail match is masked to its first two local characters (none
      when the local part is shorter), `***@` and the unchanged domain. */
  lemma MatchMasked(s: string, p: nat)
    requires p <= |s| && EmailMatchAt(s, p).Some?
    ensures var t := EmailMatchAt(s, p).value;
      exists at :: p < at < t && s[at] == '@'
        && MaskEmail(s[p..t]) == (if at - p >= 2 then s[p..p + 2] else "") + "***@" + s[at + 1..t]
  {
    var t := EmailMatchAt(s, p).value;
    var at := EmailMatchShape(s, p);
    var local, domain := s[p..at], s[at + 1..t];
    assert s[p..t] == local + "@" + domain;
    assert '@' !in local by {
      forall k | 0 <= k < |local| ensures local[k] != '@' { assert local[k] == s[p + k]; }
    }
    assert '@' !in domain by {
      forall k | 0 <= k < |domain| ensures domain[k] != '@' { assert domain[k] == s[at + 1 + k]; }
    }
    MaskEmailKeepsDomain(local, domain);
    if at - p >= 2 { assert local[..2] == s[p..p + 2]; }
  }

  // ---------------------------------------------------------------------------
  // Log sanitizing (`sanitizeForLog`)
  // ---------------------------------------------------------------------------

  const Redaction := "***REDACTED***"

  /** `sanitizeForLog`: strings are sanitized, arrays mapped element-wise, an
      object keeps its entries in order with a sensitive key's value replaced
      by the redaction marker (without looking into it), and every other value
      is returned as it is. */
  function SanitizeForLog(v: Json, redactTokens: string -> string): (r: Json)
    ensures IsNullish(v) || v.Bool? || v.Num? ==> r == v
    ensures v.Str? ==> r == Str(SanitizeString(v.s, redactTokens))
    ensures v.Arr? ==> r.Arr? && |r.items| == |v.items|
    ensures v.Obj? ==> (r.Obj? && |r.fields| == |v.fields|
      && forall i :: 0 <= i < |v.fields| ==> r.fields[i].0 == v.fields[i].0)
    decreases v
  {
    match v
    case Str(s) => Str(SanitizeString(s, redactTokens))
    case Arr(items) =>
      Arr(seq(|items|, i requires 0 <= i < |items| => SanitizeForLog(items[i], redactTokens)))
    case Obj(fields) =>
      Obj(seq(|fields|, i requires 0 <= i < |fields| =>
        (fields[i].0,
         if IsSensitiveKey(fields[i].0) then Str(Redaction)
         else SanitizeForLog(fields[i].1, redactTokens))))
    case _ => v
  }

  /** No sensitive key, at any depth, carries anything but the marker. */
  predicate Redacted(v: Json)
    decreases v
  {
    match v
    case Arr(items) => forall i | 0 <= i < |items| :: Redacted(items[i])
    case Obj(fields) =>
      forall i | 0 <= i < |fields| ::
        if IsSensitiveKey(fields[i].0) then fields[i].1 == Str(Redaction) else Redacted(fields[i].1)
    case _ => true
  }

  lemma {:induction false} SanitizeForLogRedacts(v: Json, redactTokens: string -> string)
    ensures Redacted(SanitizeForLog(v, redactTokens))
    decreases v
  {
    var r := SanitizeForLog(v, redactTokens);
    match v
    case Arr(items) =>
      forall i | 0 <= i < |items| ensures Redacted(r.items[i]) {
        SanitizeForLogRedacts(items[i], redactTokens);
      }
    case Obj(fields) =>
      forall i | 0 <= i < |fields| && !IsSensitiveKey(fields[i].0)
        ensures Redacted(r.fields[i].1)
      {
        SanitizeForLogRedacts(fields[i].1, redactTokens);
      }
    case _ =>
  }

  // ---------------------------------------------------------------------------
  // Rate limiting (`RateLimitTracker`)
  // ---------------------------------------------------------------------------

  const DefaultLimit := 100
  const DefaultWindowMs := 3600000

  /** `requests.filter((time) => now - time < windowMs)` */
  function InWindow(ts: seq<int>, now: int, windowMs: int): (r: seq<int>)
    ensures |r| <= |ts|
    ensures forall t :: t in r <==> t in ts && now - t < windowMs
  {
    if ts == [] then []
    else (if now - ts[0] < windowMs then [ts[0]] else []) + InWindow(ts[1..], now, windowMs)
  }

  lemma {:induction false} InWindowAppend(a: seq<int>, b: seq<int>, now: int, windowMs: int)
    ensures InWindow(a + b, now, windowMs) == InWindow(a, now, windowMs) + InWindow(b, now, windowMs)
  {
    if a != [] {
      assert (a + b)[1..] == a[1..] + b;
      InWindowAppend(a[1..], b, now, windowMs);
    } else {
      assert a + b == b;
    }
  }

  lemma {:induction false} InWindowTwice(ts: seq<int>, now: int, windowMs: int)
    ensures InWindow(InWindow(ts, now, windowMs), now, windowMs) == InWindow(ts, now, windowMs)
  {
    if ts != [] {
      InWindowTwice(ts[1..], now, windowMs);
      var head := if now - ts[0] < windowMs then [ts[0]] else [];
      InWindowAppend(head, InWindow(ts[1..], now, windowMs), now, windowMs);
      if head != [] { assert head[1..] == []; }
    }
  }

  function Max(a: int, b: int): int { if a >= b then a else b }

  class RateLimitTracker {
    /** Timestamps of the accepted requests, per key. */
    var requests: map<string, seq<int>>
    const limit: int
    const windowMs: int

    /** No key stores more than `limit` timestamps. */
    ghost predicate Valid()
      reads this
    {
      forall k :: k in requests ==> |requests[k]| <= limit
    }

    constructor(limit: int, windowMs: int)
      ensures Valid()
      ensures requests == map[] && this.limit == limit && this.windowMs == windowMs
    {
      this.limit := limit;
      this.windowMs := windowMs;
      requests := map[];
    }

    /** `new RateLimitTracker()`: 100 requests per hour. */
    constructor Default()
      ensures Valid()
      ensures requests == map[] && limit == DefaultLimit && windowMs == DefaultWindowMs
    {
      limit := DefaultLimit;
      windowMs := DefaultWindowMs;
      requests := map[];
    }

    /** `this.requests.get(key) || []` */
    function Stored(key: string): seq<int>
      reads this
    {
      if key in requests then requests[key] else []
    }

    /** `getRemaining(key)` at time now. */
    function GetRemaining(key: string, now: int): (r: int)
      reads this
      ensures r >= 0
      ensures r == 0 <==> |InWindow(Stored(key), now, windowMs)| >= limit
      ensures r > 0 ==> r + |InWindow(Stored(key), now, windowMs)| == limit
    {
      Max(0, limit - |InWindow(Stored(key), now, windowMs)|)
    }

    /** `isAllowed(key)` at time now: refuses, storing nothing, when the key has
        `limit` requests inside the window; otherwise drops the expired
        timestamps of that key and records now. */
    method IsAllowed(key: string, now: int) returns (allowed: bool)
      requires Valid()
      modifies this
      ensures Valid()
      ensures allowed <==> old(GetRemaining(key, now)) > 0
      ensures !allowed ==> requests == old(requests)
      ensures allowed ==> requests == old(requests)[key := InWindow(old(Stored(key)), now, windowMs) + [now]]
    {
      var valid := InWindow(Stored(key), now, windowMs);
      if |valid| >= limit {
        return false;
      }
      requests := requests[key := valid + [now]];
      allowed := true;
    }

    /** `reset(key)` */
    method Reset(key: string)
      requires Valid()
      modifies this
      ensures Valid()
      ensures requests == old(requests) - {key}
      ensures forall now :: GetRemaining(key, now) == Max(0, limit)
    {
      requests := requests - {key};
    }
  }

  /** Right after an accepted request the key has one request fewer left, as
      long as the window is not empty (with `windowMs <= 0` the new timestamp
      is already outside it). */
  lemma AllowedConsumesOne(ts: seq<int>, now: int, limit: int, windowMs: int)
    requires |InWindow(ts, now, windowMs)| < limit
    ensures var after := InWindow(InWindow(ts, now, windowMs) + [now], now, windowMs);
      |after| == |InWindow(ts, now, windowMs)| + (if windowMs > 0 then 1 else 0)
  {
    var w := InWindow(ts, now, windowMs);
    InWindowAppend(w, [now], now, windowMs);
    InWindowTwice(ts, now, windowMs);
    assert [now][1..] == [];
  }

  // ---------------------------------------------------------------------------
  // SSRF guard (`isUrlSafe`)
  // ---------------------------------------------------------------------------

  /** What `new URL(url)` yields when it does not throw. */
  datatype Url = Url(protocol: string, hostname: string)

  /** The private and metadata hosts the guard refuses. */
  predicate BlockedHost(hostname: string)
  {
    || hostname == "localhost"
    || hostname == "127.0.0.1"
    || StartsWith(hostname, "192.168.")
    || StartsWith(hostname, "10.")
    || StartsWith(hostname, "172.16.")
    || hostname == "169.254.169.254"
  }

  /** `isUrlSafe(url, allowedDomains)`, given the parse result (`None` when
      the URL constructor throws). */
  function IsUrlSafe(parsed: Option<Url>, allowedDomains: seq<string>): (r: bool)
    ensures r ==> parsed.Some? && parsed.value.protocol in ["http:", "https:"]
    ensures r ==> !BlockedHost(parsed.value.hostname)
    ensures |allowedDomains| > 0 && r ==>
      exists d :: d in allowedDomains && EndsWith(parsed.value.hostname, d)
    ensures parsed.Some? && parsed.value.protocol in ["http:", "https:"] && !BlockedHost(parsed.value.hostname)
      && (|allowedDomains| == 0 || exists d :: d in allowedDomains && EndsWith(parsed.value.hostname, d))
      ==> r
  {
    match parsed
    case None => false
    case Some(u) =>
      if u.protocol !in ["http:", "https:"] then false
      else if BlockedHost(u.hostname) then false
      else if |allowedDomains| > 0 then exists d :: d in allowedDomains && EndsWith(u.hostname, d)
      else true
  }

  /** The allowlist compares plain suffixes, with no label boundary: a look-alike
      host that merely ends with an allowed domain passes. */
  lemma AllowlistIsPlainSuffix()
    ensures IsUrlSafe(Some(Url("https:", "evilexample.com")), ["example.com"])
  {
    var h := "evilexample.com";
    assert EndsWith(h, "example.com");
    assert h[0] == 'e' && h[1] == 'v';
    assert "10."[0] == '1' && "192.168."[0] == '1' && "172.16."[0] == '1';
  }

  /** The cloud metadata address is refused even when allowlisted. */
  lemma MetadataHostRefused(protocol: string, allowedDomains: seq<string>)
    ensures !IsUrlSafe(Some(Url(protocol, "169.254.169.254")), allowedDomains)
  {
  }

  // ---------------------------------------------------------------------------
  // Content Security Policy (`generateCSPHeader`)
  // ---------------------------------------------------------------------------

  /** `CSP_DIRECTIVES`, in declaration order. */
  const CspDirectives: seq<(string, seq<string>)> := [
    ("default-src", ["'self'"]),
    ("script-src", ["'self'", "'unsafe-inline'"]),
    ("style-src", ["'self'", "'unsafe-inline'", "https://fonts.googleapis.com"]),
    ("font-src", ["'self'", "https://fonts.gstatic.com"]),
    ("img-src", ["'self'", "data:", "https:"]),
    ("connect-src", ["'self'"]),
    ("frame-ancestors", ["'none'"]),
    ("base-uri", ["'self'"]),
    ("form-action", ["'self'"])
  ]

  /** `${directive} ${sources.join(" ")}` for each entry, joined with `"; "`. */
  function CspHeaderOf(directives: seq<(string, seq<string>)>): (r: string)
    ensures |directives| == 1 ==> r == DirectiveLine(directives[0])
  {
    Join(seq(|directives|, i requires 0 <= i < |directives| => DirectiveLine(directives[i])), "; ")
  }

  function GenerateCspHeader(): string
  {
    CspHeaderOf(CspDirectives)
  }

  /** `${directive} ${sources.join(" ")}` */
  function DirectiveLine(d: (string, seq<string>)): string
  {
    d.0 + " " + Join(d.1, " ")
  }

  /** Adding a directive appends exactly its own line after a `"; "`. */
  lemma CspHeaderAppend(directives: seq<(string, seq<string>)>, d: (string, seq<string>))
    requires |directives| >= 1
    ensures CspHeaderOf(directives + [d]) == CspHeaderOf(directives) + "; " + DirectiveLine(d)
  {
    var ds := directives + [d];
    var lines := seq(|directives|, i requires 0 <= i < |directives| => DirectiveLine(directives[i]));
    assert seq(|ds|, i requires 0 <= i < |ds| => DirectiveLine(ds[i])) == lines + [DirectiveLine(d)];
    JoinAppend(lines, DirectiveLine(d), "; ");
  }
}
