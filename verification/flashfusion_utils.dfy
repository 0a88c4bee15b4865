/** The string helpers of the FlashFusion utilities: the case-insensitive
    fuzzy search and the assembly of a shareable prompt from its sections. */
module FlashFusionUtils {
  import opened JsString

  // ---------------------------------------------------------------------------
  // fuzzyMatch
  // ---------------------------------------------------------------------------

  /** q is a subsequence of t: its elements occur in t in the same order,
      each matched against any later element of t. */
  predicate IsSubseq<T(==)>(q: seq<T>, t: seq<T>)
  {
    q == [] || (t != [] && ((q[0] == t[0] && IsSubseq(q[1..], t[1..])) || IsSubseq(q, t[1..])))
  }

  /** How many leading elements of q a left-to-right scan of t matches,
      advancing in q on every equal element. */
  function Scanned<T(==)>(q: seq<T>, t: seq<T>): (r: nat)
    ensures r <= |q|
  {
    if q == [] || t == [] then 0
    else if t[0] == q[0] then 1 + Scanned(q[1..], t[1..])
    else Scanned(q, t[1..])
  }

  /** What `fuzzyMatch(text, query)` decides: the code units of the
      lower-cased query are a subsequence of those of the lower-cased text
      (indexing a JavaScript string reads UTF-16 code units). */
  predicate FuzzyMatches(text: string, query: string)
  {
    IsSubseq(CodeUnits(ToLower(query)), CodeUnits(ToLower(text)))
  }

  /** `fuzzyMatch`: the empty query matches; a query contained in the text
      matches; otherwise the scan advances through the query on each equal
      code unit and matches when it reaches the end. */
  method FuzzyMatch(text: string, query: string) returns (r: bool)
    ensures r <==> FuzzyMatches(text, query)
  {
    if query == [] {
      return true;
    }
    var lowerText := CodeUnits(ToLower(text));
    var lowerQuery := CodeUnits(ToLower(query));
    if Includes(lowerText, lowerQuery) {
      var k :| 0 <= k <= |lowerText| && OccursAt(lowerText, lowerQuery, k);
      SubstringIsSubseq(lowerQuery, lowerText, k);
      return true;
    }
    var queryIndex := 0;
    var i := 0;
    while i < |lowerText| && queryIndex < |lowerQuery|
      invariant 0 <= i <= |lowerText| && 0 <= queryIndex <= |lowerQuery|
      invariant queryIndex + Scanned(lowerQuery[queryIndex..], lowerText[i..]) == Scanned(lowerQuery, lowerText)
    {
      if lowerText[i] == lowerQuery[queryIndex] {
        queryIndex := queryIndex + 1;
      }
      i := i + 1;
    }
    ScannedIff(lowerQuery, lowerText);
    r := queryIndex == |lowerQuery|;
  }

  /** A subsequence of t is also one of t with elements added in front. */
  lemma {:induction false} SubseqSkip<T>(q: seq<T>, t: seq<T>, n: nat)
    requires n <= |t| && IsSubseq(q, t[n..])
    ensures IsSubseq(q, t)
    decreases n
  {
    if n > 0 {
      assert t[1..][n - 1..] == t[n..];
      SubseqSkip(q, t[1..], n - 1);
    }
  }

  /** A subsequence of t is also one of t with elements added at the end. */
  lemma {:induction false} SubseqExtend<T>(q: seq<T>, t: seq<T>, u: seq<T>)
    requires IsSubseq(q, t)
    ensures IsSubseq(q, t + u)
    decreases |t|
  {
    if q != [] {
      assert (t + u)[0] == t[0] && (t + u)[1..] == t[1..] + u;
      if q[0] == t[0] && IsSubseq(q[1..], t[1..]) {
        SubseqExtend(q[1..], t[1..], u);
      } else {
        SubseqExtend(q, t[1..], u);
      }
    }
  }

  lemma {:induction false} SubseqRefl<T>(q: seq<T>)
    ensures IsSubseq(q, q)
  {
    if q != [] {
      SubseqRefl(q[1..]);
    }
  }

  /** A common prefix keeps a subsequence a subsequence. */
  lemma {:induction false} SubseqPrefix<T>(p: seq<T>, q: seq<T>, t: seq<T>)
    requires IsSubseq(q, t)
    ensures IsSubseq(p + q, p + t)
    decreases |p|
  {
    if p != [] {
      assert (p + q)[0] == p[0] && (p + t)[0] == p[0];
      assert (p + q)[1..] == p[1..] + q && (p + t)[1..] == p[1..] + t;
      SubseqPrefix(p[1..], q, t);
    } else {
      assert p + q == q && p + t == t;
    }
  }

  /** A subsequence of t is also one of p + t. */
  lemma SubseqAfter<T>(q: seq<T>, p: seq<T>, t: seq<T>)
    requires IsSubseq(q, t)
    ensures IsSubseq(q, p + t)
  {
    assert (p + t)[|p|..] == t;
    SubseqSkip(q, p + t, |p|);
  }

  /** The substring shortcut never changes the answer: a query that occurs
      in the text is a subsequence of it. */
  lemma SubstringIsSubseq<T>(q: seq<T>, t: seq<T>, k: nat)
    requires OccursAt(t, q, k)
    ensures IsSubseq(q, t)
  {
    SubseqRefl(q);
    SubseqExtend(q, q, t[k + |q|..]);
    assert t[k..] == q + t[k + |q|..];
    SubseqSkip(q, t, k);
  }

  /** Dropping the first element of q keeps it a subsequence. */
  lemma {:induction false} SubseqTail<T>(q: seq<T>, t: seq<T>)
    requires q != [] && IsSubseq(q, t)
    ensures IsSubseq(q[1..], t)
    decreases |t|
  {
    if q[0] == t[0] && IsSubseq(q[1..], t[1..]) {
      SubseqSkip(q[1..], t, 1);
    } else {
      SubseqTail(q, t[1..]);
      SubseqSkip(q[1..], t, 1);
    }
  }

  /** The greedy scan matches all of q exactly when q is a subsequence of t. */
  lemma {:induction false} ScannedIff<T>(q: seq<T>, t: seq<T>)
    ensures Scanned(q, t) == |q| <==> IsSubseq(q, t)
    decreases |t|
  {
    if q != [] && t != [] {
      ScannedIff(q, t[1..]);
      if t[0] == q[0] {
        ScannedIff(q[1..], t[1..]);
        if IsSubseq(q, t[1..]) {
          SubseqTail(q, t[1..]);
        }
      }
    }
  }

  /** A subsequence is never longer than the sequence it is taken from. */
  lemma {:induction false} SubseqLength<T>(q: seq<T>, t: seq<T>)
    requires IsSubseq(q, t)
    ensures |q| <= |t|
    decreases |t|
  {
    if q != [] {
      if q[0] == t[0] && IsSubseq(q[1..], t[1..]) {
        SubseqLength(q[1..], t[1..]);
      } else {
        SubseqLength(q, t[1..]);
      }
    }
  }

  /** A subsequence of a subsequence is a subsequence. */
  lemma {:induction false} SubseqTrans<T>(p: seq<T>, q: seq<T>, t: seq<T>)
    requires IsSubseq(p, q) && IsSubseq(q, t)
    ensures IsSubseq(p, t)
    decreases |t|
  {
    if p != [] {
      if q[0] == t[0] && IsSubseq(q[1..], t[1..]) {
        if p[0] == q[0] && IsSubseq(p[1..], q[1..]) {
          SubseqTrans(p[1..], q[1..], t[1..]);
        } else {
          SubseqTrans(p, q[1..], t[1..]);
          SubseqSkip(p, t, 1);
        }
      } else {
        SubseqTrans(p, q, t[1..]);
        SubseqSkip(p, t, 1);
      }
    }
  }

  /** Lower-casing keeps subsequences. */
  lemma {:induction false} SubseqToLower(q: string, t: string)
    requires IsSubseq(q, t)
    ensures IsSubseq(ToLower(q), ToLower(t))
    decreases |t|
  {
    if q != [] {
      assert ToLower(q)[1..] == ToLower(q[1..]) && ToLower(t)[1..] == ToLower(t[1..]);
      if q[0] == t[0] && IsSubseq(q[1..], t[1..]) {
        SubseqToLower(q[1..], t[1..]);
      } else {
        SubseqToLower(q, t[1..]);
      }
    }
  }

  /** A subsequence of characters gives a subsequence of code units: whenever
      the query's characters occur in order in the text, so do its code units.
      The converse fails: a query character's surrogate halves may be matched
      by halves of two different text characters. */
  lemma {:induction false} SubseqCodeUnits(q: string, t: string)
    requires IsSubseq(q, t)
    ensures IsSubseq(CodeUnits(q), CodeUnits(t))
    decreases |t|
  {
    if q != [] {
      CodeUnitsCons(t);
      if q[0] == t[0] && IsSubseq(q[1..], t[1..]) {
        SubseqCodeUnits(q[1..], t[1..]);
        CodeUnitsCons(q);
        SubseqPrefix(Utf16(t[0]), CodeUnits(q[1..]), CodeUnits(t[1..]));
      } else {
        SubseqCodeUnits(q, t[1..]);
        SubseqAfter(CodeUnits(q), Utf16(t[0]), CodeUnits(t[1..]));
      }
    }
  }

  /** The empty query matches every text. */
  lemma EmptyQueryMatches(text: string)
    ensures FuzzyMatches(text, "")
  {
  }

  /** A query with more code units than the text never matches. */
  lemma LongQueryFails(text: string, query: string)
    requires |CodeUnits(query)| > |CodeUnits(text)|
    ensures !FuzzyMatches(text, query)
  {
    CodeUnitsToLowerLength(query);
    CodeUnitsToLowerLength(text);
    if FuzzyMatches(text, query) {
      SubseqLength(CodeUnits(ToLower(query)), CodeUnits(ToLower(text)));
    }
  }

  /** Deleting characters from a matching query keeps it matching. */
  lemma ShorterQueryMatches(text: string, query: string, shorter: string)
    requires IsSubseq(shorter, query) && FuzzyMatches(text, query)
    ensures FuzzyMatches(text, shorter)
  {
    SubseqToLower(shorter, query);
    SubseqCodeUnits(ToLower(shorter), ToLower(query));
    SubseqTrans(CodeUnits(ToLower(shorter)), CodeUnits(ToLower(query)), CodeUnits(ToLower(text)));
  }

  /** A query whose lower-cased characters occur in order in the lower-cased
      text matches. */
  lemma CharacterMatchMatches(text: string, query: string)
    requires IsSubseq(ToLower(query), ToLower(text))
    ensures FuzzyMatches(text, query)
  {
    SubseqCodeUnits(ToLower(query), ToLower(text));
  }

  /** The scan compares code units: a query character outside the Basic
      Multilingual Plane matches when its two surrogate halves are found in
      two different characters of the text, though the character itself
      does not occur there. */
  lemma SurrogateHalvesMatch()
    ensures FuzzyMatches("\U{1F400}\U{20601}", "\U{1F601}")
    ensures !IsSubseq(ToLower("\U{1F601}"), ToLower("\U{1F400}\U{20601}"))
  {
    var t, q := "\U{1F400}\U{20601}", "\U{1F601}";
    assert ToLower(t) == t && ToLower(q) == q;
    SurrogateUnits();
    var ct: seq<int>, cq: seq<int> := [0xD83D, 0xDC00, 0xD841, 0xDE01], [0xD83D, 0xDE01];
    assert IsSubseq(cq[1..], ct[1..]) by {
      assert IsSubseq(cq[1..], ct[3..]);
      SubseqSkip(cq[1..], ct[1..], 2);
      assert ct[1..][2..] == ct[3..];
    }
    assert IsSubseq(cq, ct);
    assert !IsSubseq(q, t[1..]) && !IsSubseq(q, t[1..][1..]);
  }

  /** The UTF-16 code units of the two strings above. */
  lemma SurrogateUnits()
    ensures CodeUnits("\U{1F400}\U{20601}") == [0xD83D, 0xDC00, 0xD841, 0xDE01]
    ensures CodeUnits("\U{1F601}") == [0xD83D, 0xDE01]
  {
    var t, q := "\U{1F400}\U{20601}", "\U{1F601}";
    CodeUnitsCons(t);
    CodeUnitsCons(t[1..]);
    CodeUnitsCons(q);
    assert Utf16(t[0]) == [0xD83D, 0xDC00];
    assert Utf16(t[1]) == [0xD841, 0xDE01];
    assert Utf16(q[0]) == [0xD83D, 0xDE01];
  }

  /** The match ignores the case of ASCII letters. */
  lemma MatchIgnoresCase(text: string, query: string)
    ensures FuzzyMatches(text, query) <==> FuzzyMatches(ToLower(text), ToLower(query))
  {
    ToLowerTwice(text);
    ToLowerTwice(query);
  }

  lemma ToLowerTwice(s: string)
    ensures ToLower(ToLower(s)) == ToLower(s)
  {
  }

  // ---------------------------------------------------------------------------
  // generatePromptText
  // ---------------------------------------------------------------------------

  datatype PromptSections = PromptSections(context: string, task: string, constraints: string, tone: string)

  const Labels: seq<string> := ["Context", "Task", "Constraints", "Tone"]

  const PartSeparator: string := "\n\n"

  /** The section texts, in the order of Labels. */
  function Texts(s: PromptSections): (r: seq<string>)
    ensures |r| == |Labels|
  {
    [s.context, s.task, s.constraints, s.tone]
  }

  /** A section as it is rendered: a bold label line, then the text. */
  function Section(heading: string, text: string): string
  {
    "**" + heading + ":**\n" + text
  }

  function CountNonEmpty(texts: seq<string>): (r: nat)
    ensures r <= |texts|
  {
    if texts == [] then 0 else (if texts[0] != "" then 1 else 0) + CountNonEmpty(texts[1..])
  }

  /** The rendered sections whose text is non-empty, in order. */
  function Rendered(labels: seq<string>, texts: seq<string>): (r: seq<string>)
    requires |labels| == |texts|
  {
    if texts == [] then []
    else (if texts[0] != "" then [Section(labels[0], texts[0])] else []) + Rendered(labels[1..], texts[1..])
  }

  /** `generatePromptText`: push the non-empty sections in order, then join. */
  method GeneratePromptText(sections: PromptSections) returns (r: string)
    ensures r == Join(Rendered(Labels, Texts(sections)), PartSeparator)
  {
    var parts: seq<string> := [];
    if sections.context != "" {
      parts := parts + [Section("Context", sections.context)];
    }
    assert parts == Part("Context", sections.context);
    if sections.task != "" {
      parts := parts + [Section("Task", sections.task)];
    }
    assert parts == Part("Context", sections.context) + Part("Task", sections.task);
    if sections.constraints != "" {
      parts := parts + [Section("Constraints", sections.constraints)];
    }
    assert parts == Part("Context", sections.context) + Part("Task", sections.task) + Part("Constraints", sections.constraints);
    if sections.tone != "" {
      parts := parts + [Section("Tone", sections.tone)];
    }
    assert parts == Part("Context", sections.context) + Part("Task", sections.task)
      + Part("Constraints", sections.constraints) + Part("Tone", sections.tone);
    RenderedUnfold(sections);
    r := Join(parts, PartSeparator);
  }

  function Part(heading: string, text: string): seq<string>
  {
    if text != "" then [Section(heading, text)] else []
  }

  lemma RenderedUnfold(s: PromptSections)
    ensures Rendered(Labels, Texts(s)) ==
      Part("Context", s.context) + Part("Task", s.task) + Part("Constraints", s.constraints) + Part("Tone", s.tone)
  {
    var ts := Texts(s);
    assert Labels[1..] == ["Task", "Constraints", "Tone"] && ts[1..] == [s.task, s.constraints, s.tone];
    assert Labels[2..] == ["Constraints", "Tone"] && ts[2..] == [s.constraints, s.tone];
    assert Labels[3..] == ["Tone"] && ts[3..] == [s.tone];
    assert Rendered(Labels[3..], ts[3..]) == Part("Tone", s.tone);
    assert Rendered(Labels[2..], ts[2..]) == Part("Constraints", s.constraints) + Rendered(Labels[3..], ts[3..]);
    assert Rendered(Labels[1..], ts[1..]) == Part("Task", s.task) + Rendered(Labels[2..], ts[2..]);
  }

  /** One part per non-empty section. */
  lemma {:induction false} RenderedCount(labels: seq<string>, texts: seq<string>)
    requires |labels| == |texts|
    ensures |Rendered(labels, texts)| == CountNonEmpty(texts)
  {
    if texts != [] {
      RenderedCount(labels[1..], texts[1..]);
    }
  }

  /** Each part is the rendering of the k-th non-empty section, with that
      section's own label. */
  lemma {:induction false} RenderedParts(labels: seq<string>, texts: seq<string>, i: nat)
    requires |labels| == |texts| && i < |texts| && texts[i] != ""
    ensures Section(labels[i], texts[i]) in Rendered(labels, texts)
  {
    if i > 0 {
      RenderedParts(labels[1..], texts[1..], i - 1);
    }
  }

  /** All sections empty: the prompt is the empty string; otherwise it is not. */
  lemma EmptyPrompt(s: PromptSections)
    ensures Join(Rendered(Labels, Texts(s)), PartSeparator) == "" <==> Texts(s) == ["", "", "", ""]
  {
    RenderedUnfold(s);
    var parts := Rendered(Labels, Texts(s));
    if parts != [] {
      assert |parts[0]| > 0;
      assert Join(parts, PartSeparator)[0] == parts[0][0];
    }
  }

  /** The sections of a prompt with exactly the task filled in. */
  lemma TaskOnlyPrompt(task: string)
    requires task != ""
    ensures Join(Rendered(Labels, Texts(PromptSections("", task, "", ""))), PartSeparator) == "**Task:**\n" + task
  {
    RenderedUnfold(PromptSections("", task, "", ""));
  }
}
