/** The asset generation service: the prompt hash recorded in provenance, the
    per-type time estimate and the queued response of `generate`. The clock
    and the random job-id suffix are parameters. */
module AssetGeneration {
  import opened Wrappers
  import opened JsString
  import opened JsValue
  import opened FlashFusionTypes

  // ---------------------------------------------------------------------------
  // 32-bit integers
  // ---------------------------------------------------------------------------

  const TwoTo31: int := 0x8000_0000
  const TwoTo32: int := 0x1_0000_0000

  /** ECMAScript ToInt32: the signed 32-bit integer congruent to x modulo 2^32. */
  function ToInt32(x: int): (r: int)
    ensures -TwoTo31 <= r < TwoTo31
    ensures (x - r) % TwoTo32 == 0
  {
    var m := x % TwoTo32;
    if m >= TwoTo31 then m - TwoTo32 else m
  }

  /** Congruent numbers wrap to the same 32-bit integer. */
  lemma ToInt32Congruent(x: int, y: int)
    requires (x - y) % TwoTo32 == 0
    ensures ToInt32(x) == ToInt32(y)
  {
    var k := (x - y) / TwoTo32;
    assert x == y + k * TwoTo32;
    assert x % TwoTo32 == y % TwoTo32;
  }

  // ---------------------------------------------------------------------------
  // hashPrompt
  // ---------------------------------------------------------------------------

  /** One update of the hash: `31 * h + c`, wrapped to 32 bits. */
  function Step(h: int, c: int): (r: int)
    ensures -TwoTo31 <= r < TwoTo31
  {
    ToInt32(31 * h + c)
  }

  /** The update as the loop writes it: `(h << 5) - h + c` (the shift wraps
      to 32 bits, the rest is exact), then `h & h`, which wraps again. */
  lemma ShiftStepIsStep(h: int, c: int)
    ensures ToInt32(ToInt32(h * 32) - h + c) == Step(h, c)
  {
    var s := ToInt32(h * 32);
    assert (h * 32 - s) % TwoTo32 == 0;
    assert (s - h + c) - (31 * h + c) == -(h * 32 - s);
    ToInt32Congruent(s - h + c, 31 * h + c);
  }

  /** The hash of a sequence of code units, starting from 0. */
  function Hash(units: seq<int>): (r: int)
    ensures -TwoTo31 <= r < TwoTo31
  {
    if units == [] then 0 else Step(Hash(units[..|units| - 1]), units[|units| - 1])
  }

  /** Appending a code unit applies one step to the hash so far. */
  lemma HashAppend(units: seq<int>, c: int)
    ensures Hash(units + [c]) == Step(Hash(units), c)
  {
    assert (units + [c])[..|units|] == units;
  }

  /** `Math.abs`. */
  function Abs(h: int): nat
  {
    if h < 0 then -h else h
  }

  /** `hashPrompt(prompt)`: the lower-case hexadecimal form of the absolute hash. */
  function PromptHash(prompt: string): string
  {
    NatToString(Abs(Hash(CodeUnits(prompt))), 16)
  }

  method HashPrompt(prompt: string) returns (r: string)
    ensures r == PromptHash(prompt)
  {
    var units := CodeUnits(prompt);
    var hash := 0;
    for i := 0 to |units|
      invariant hash == Hash(units[..i])
    {
      var c := units[i];
      ShiftStepIsStep(hash, c);
      HashAppend(units[..i], c);
      assert units[..i + 1] == units[..i] + [c];
      hash := ToInt32(ToInt32(hash * 32) - hash + c);
    }
    assert units[..|units|] == units;
    r := NatToString(Abs(hash), 16);
  }

  /** The prompt hash is one to eight lower-case hex digits with no sign and
      no leading zero, and the empty prompt hashes to "0". */
  lemma PromptHashShape(prompt: string)
    ensures var r := PromptHash(prompt);
      && 1 <= |r| <= 8
      && (forall i :: 0 <= i < |r| ==> IsHexDigit(r[i]) && !IsAsciiUpper(r[i]))
      && (|r| > 1 ==> r[0] != '0')
    ensures PromptHash("") == "0"
  {
    var a := Abs(Hash(CodeUnits(prompt)));
    assert Pow16(8) == 0x1_0000_0000 by {
      assert Pow16(1) == 16;
      assert Pow16(2) == 0x100;
      assert Pow16(4) == 0x1_0000 by { assert Pow16(3) == 0x1000; }
      assert Pow16(6) == 0x100_0000 by { assert Pow16(5) == 0x10_0000; }
      assert Pow16(7) == 0x1000_0000;
    }
    HexLengthBound(a, 8);
    assert CodeUnits("") == [];
    assert NatToString(0, 16) == [DigitChar(0)];
  }

  /** Reading the hash back as a hexadecimal number gives the absolute value of the 32-bit hash. */
  lemma PromptHashReadsBack(prompt: string)
    ensures ParseNat(PromptHash(prompt), 16) == Abs(Hash(CodeUnits(prompt)))
  {
    var a := Abs(Hash(CodeUnits(prompt)));
    assert PromptHash(prompt) == NatToString(a, 16);
    ParseNatToString(a, 16);
  }

  // ---------------------------------------------------------------------------
  // AssetGenerationService.generate
  // ---------------------------------------------------------------------------

  /** `getEstimatedTime`: seconds by asset type. */
  function EstimatedTime(t: AssetType): (r: nat)
    ensures 2 <= r <= 5
  {
    match t
    case Text => 2
    case Image => 3
    case Video => 5
    case Music => 4
  }

  /** Different asset types get different estimates: text is quickest, then
      image, music and video. */
  lemma EstimatedTimeOrder()
    ensures EstimatedTime(Text) < EstimatedTime(Image) < EstimatedTime(Music) < EstimatedTime(Video)
    ensures forall s, t :: EstimatedTime(s) == EstimatedTime(t) ==> s == t
  {
  }

  datatype GenerationRequest = GenerationRequest(
    assetType: AssetType, prompt: string, parameters: Option<Json>, brandKitId: Option<string>)

  datatype GenerationStatus = Queued | Processing

  datatype GenerationResponse = GenerationResponse(jobId: string, status: GenerationStatus, estimatedTime: Option<nat>)

  /** `job_${Date.now()}_${suffix}`. */
  function JobId(now: nat, suffix: string): string
  {
    "job_" + NatToString(now, 10) + "_" + suffix
  }

  /** `generate(request)` at `now`, with the random suffix of the job id: a
      queued job with the estimate for the request's type. */
  function Generate(request: GenerationRequest, now: nat, suffix: string): (r: GenerationResponse)
    ensures r.status == Queued
    ensures r.estimatedTime == Some(EstimatedTime(request.assetType))
    ensures StartsWith(r.jobId, "job_")
  {
    GenerationResponse(JobId(now, suffix), Queued, Some(EstimatedTime(request.assetType)))
  }

  /** A job id determines its timestamp and its suffix. */
  lemma JobIdInjective(n1: nat, s1: string, n2: nat, s2: string)
    requires JobId(n1, s1) == JobId(n2, s2)
    ensures n1 == n2 && s1 == s2
  {
    var d1, d2 := NatToString(n1, 10), NatToString(n2, 10);
    var t1, t2 := d1 + "_" + s1, d2 + "_" + s2;
    assert JobId(n1, s1) == "job_" + t1 && JobId(n2, s2) == "job_" + t2;
    assert t1 == JobId(n1, s1)[4..] && t2 == JobId(n2, s2)[4..];
    SplitAtSeparator(d1, s1, d2, s2);
    ParseNatToString(n1, 10);
    ParseNatToString(n2, 10);
  }

  lemma SeparatorAt(d: string, s: string)
    ensures (d + "_" + s)[|d|] == '_'
  {
  }

  /** A separator that cannot occur in the leading digits splits a
      concatenation in only one way. */
  lemma {:induction false} SplitAtSeparator(d1: string, s1: string, d2: string, s2: string)
    requires forall i :: 0 <= i < |d1| ==> IsHexDigit(d1[i])
    requires forall i :: 0 <= i < |d2| ==> IsHexDigit(d2[i])
    requires d1 + "_" + s1 == d2 + "_" + s2
    ensures d1 == d2 && s1 == s2
  {
    var t := d1 + "_" + s1;
    if |d1| < |d2| {
      SeparatorAt(d1, s1);
      assert false;
    } else if |d2| < |d1| {
      SeparatorAt(d2, s2);
      assert false;
    }
    assert d1 == t[..|d1|] == d2;
    assert s1 == t[|d1| + 1..] == s2;
  }
}
