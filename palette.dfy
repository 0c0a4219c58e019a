/** The pure rules of the palette generator: the scheme labels, the prompt template, the
    gating of a generation, the colour list a completion yields and the five swatches. */
module Palette {
  import opened Options
  import opened JsStrings
  import opened HexCodes

  /** The five colour-harmony labels offered by the dropdown. */
  datatype Scheme = Monochromatic | Analogous | Complementary | Triad | Tetradic {
    /** The label as the dropdown shows it and the prompt quotes it. */
    function Name(): string {
      match this
      case Monochromatic => "Monochromatic"
      case Analogous => "Analogous"
      case Complementary => "Complementary"
      case Triad => "Triad"
      case Tetradic => "Tetradic"
    }
  }

  /** The scheme selected when the page loads. */
  const InitialScheme: Scheme := Complementary

  const PromptHead: string := "A "
  const PromptMiddle: string := " color scheme of 5 HEX codes, describing the statement: \""
  const PromptTail: string := "\""

  /** The completion prompt: the template with the scheme's label and the description
      inserted verbatim, without escaping. */
  function Prompt(scheme: Scheme, description: string): string {
    PromptHead + scheme.Name() + PromptMiddle + description + PromptTail
  }

  /** The prompt embeds its scheme and description so that both can be read back: two
      different choices never produce the same prompt. */
  lemma PromptInjective(s1: Scheme, d1: string, s2: Scheme, d2: string)
    requires Prompt(s1, d1) == Prompt(s2, d2)
    ensures s1 == s2 && d1 == d2
  {
    var p := Prompt(s1, d1);
    assert p[2] == s1.Name()[0] && p[3] == s1.Name()[1];
    assert p[2] == s2.Name()[0] && p[3] == s2.Name()[1];
    var n := |PromptHead + s1.Name() + PromptMiddle|;
    assert p == (PromptHead + s1.Name() + PromptMiddle) + d1 + PromptTail;
    assert p == (PromptHead + s2.Name() + PromptMiddle) + d2 + PromptTail;
    assert d1 == p[n..|p| - 1];
  }

  /** The prompt starts with the template's fixed head and the scheme's label and ends
      with the description followed by the closing quote. */
  lemma PromptLayout(scheme: Scheme, description: string)
    ensures var p := Prompt(scheme, description);
      var n := |PromptHead| + |scheme.Name()| + |PromptMiddle|;
      |p| == n + |description| + 1
      && p[..2] == "A " && p[2..2 + |scheme.Name()|] == scheme.Name()
      && p[n..n + |description|] == description && p[|p| - 1] == '"'
  {
    var p := Prompt(scheme, description);
    var n := |PromptHead| + |scheme.Name()| + |PromptMiddle|;
    assert p == (PromptHead + scheme.Name()) + PromptMiddle + description + PromptTail;
    assert p[n..n + |description|] == description;
  }

  /** `e.key === "Enter" && emotion.length > 0`: the key handler starts a generation. */
  predicate EnterStarts(key: string, description: string) {
    key == "Enter" && |description| > 0
  }

  /** `disabled={emotion.length < 1 || loading}` on the search button. */
  predicate SearchDisabled(description: string, loading: bool) {
    |description| < 1 || loading
  }

  /** Enter in the description field and the search button agree: while no generation is
      running, each starts one exactly when the description is not empty. */
  lemma EnterAgreesWithSearchButton(description: string, loading: bool)
    requires !loading
    ensures EnterStarts("Enter", description) <==> !SearchDisabled(description, loading)
    ensures !SearchDisabled(description, loading) <==> description != []
  {
  }

  /** The list `match` returns for the completion text, after `?.trim()`; None when the
      response has no text or nothing matches. */
  function Extracted(text: Option<string>): Option<seq<string>> {
    match text
    case None => None
    case Some(t) => MatchAll(Trim(t))
  }

  /** The colour list once a generation has finished: the matches, or else the empty list
      set when the generation started. */
  function PaletteOf(text: Option<string>): seq<string> {
    match Extracted(text)
    case None => []
    case Some(m) => m
  }

  /** The colour list is empty exactly when the text holds no six hex digits in a row (or
      there is no text); trimming plays no part. */
  lemma PaletteEmptyIffNoHexRun(text: Option<string>)
    ensures PaletteOf(text) == [] <==> (text.Some? ==> forall p: nat :: !HexRunAt(text.value, p))
  {
    if text.Some? {
      TrimKeepsMatches(text.value);
      NoMatchIffNoHexRun(text.value);
      MatchesAreHexCodes(text.value);
    }
  }

  /** Every colour in the list is a hex code the pattern can match, copied verbatim from
      the completion text, in left-to-right order without overlap. */
  lemma PaletteIsHexCodesInOrder(t: string)
    ensures forall k :: 0 <= k < |PaletteOf(Some(t))| ==> IsHexCode(PaletteOf(Some(t))[k])
    ensures PaletteOf(Some(t)) != [] ==> exists pos :: OccursInOrder(t, PaletteOf(Some(t)), pos)
  {
    TrimKeepsMatches(t);
    MatchesAreHexCodes(t);
    MatchesOccurInOrder(t);
  }

  const SwatchCount: nat := 5

  /** The background of a swatch with no colour behind it. */
  const Placeholder: string := "#eeeeee"

  /** `colours[index] || "#eeeeee"`: a missing entry is undefined and an empty one is
      falsy, and both fall back to the placeholder. */
  function SwatchAt(colours: seq<string>, index: nat): string {
    if index < |colours| && colours[index] != "" then colours[index] else Placeholder
  }

  /** `Array(5).fill(0).map((_, index) => ...)`: the backgrounds of the five swatches. */
  function Swatches(colours: seq<string>): seq<string> {
    seq(SwatchCount, index requires 0 <= index < SwatchCount => SwatchAt(colours, index))
  }

  /** `colours[index]`, what the click on a swatch copies: undefined past the end. */
  function CopiedValue(colours: seq<string>, index: nat): Option<string> {
    if index < |colours| then Some(colours[index]) else None
  }

  function Placeholders(n: nat): (r: seq<string>)
    ensures |r| == n && forall k :: 0 <= k < n ==> r[k] == Placeholder
  {
    if n == 0 then [] else [Placeholder] + Placeholders(n - 1)
  }

  function Min(a: nat, b: nat): nat { if a <= b then a else b }

  /** With no empty entries, the view shows the first five colours in order and pads the
      rest with placeholders; colours beyond the fifth are not shown. */
  lemma SwatchesShowFirstFive(colours: seq<string>)
    requires forall k :: 0 <= k < |colours| ==> colours[k] != ""
    ensures Swatches(colours) == colours[..Min(|colours|, SwatchCount)] + Placeholders(SwatchCount - Min(|colours|, SwatchCount))
  {
    var shown := Min(|colours|, SwatchCount);
    var r := colours[..shown] + Placeholders(SwatchCount - shown);
    assert |r| == SwatchCount;
    forall i | 0 <= i < SwatchCount ensures Swatches(colours)[i] == r[i] {
      if i < shown { assert r[i] == colours[i]; } else { assert r[i] == Placeholders(SwatchCount - shown)[i - shown]; }
    }
  }

  /** When every entry is a hex code (or empty), so is every swatch's background. */
  lemma SwatchesAreHexCodes(colours: seq<string>)
    requires forall k :: 0 <= k < |colours| ==> colours[k] == "" || IsHexCode(colours[k])
    ensures forall i :: 0 <= i < |Swatches(colours)| ==> IsHexCode(Swatches(colours)[i])
  {
    HexRunOf(Placeholder, 1);
  }

  /** A swatch that shows a colour copies that colour; a placeholder swatch past the end
      of the list copies undefined. */
  lemma CopyMatchesSwatch(colours: seq<string>, index: nat)
    requires index < SwatchCount
    ensures index < |colours| && colours[index] != "" ==> CopiedValue(colours, index) == Some(Swatches(colours)[index])
    ensures index >= |colours| ==> CopiedValue(colours, index) == None && Swatches(colours)[index] == Placeholder
  {
  }

  /** A completion without six hex digits in a row leaves five placeholder swatches. */
  lemma NoHexRunAllPlaceholders(t: string)
    requires forall p: nat :: !HexRunAt(t, p)
    ensures Swatches(PaletteOf(Some(t))) == Placeholders(SwatchCount)
  {
    PaletteEmptyIffNoHexRun(Some(t));
    SwatchesShowFirstFive([]);
  }

  /** After a completion, swatch i shows the i-th colour found in the text, for the first
      five, and the placeholder once the colours run out. */
  lemma CompletionSwatches(t: string)
    ensures var m := PaletteOf(Some(t));
      Swatches(m) == m[..Min(|m|, SwatchCount)] + Placeholders(SwatchCount - Min(|m|, SwatchCount))
  {
    PaletteIsHexCodesInOrder(t);
    SwatchesShowFirstFive(PaletteOf(Some(t)));
  }
}
