/** Claim extraction from a parsed deck: the provenance gate, whatever the patterns match. */
module Extraction {
  import opened Prelude
  import opened Domain
  import opened Products
  import opened Sequences
  import Analysis
  import Recommendation
  import Screening
  import Text
  import Thesis

  datatype Page = Page(number: nat, text: string)

  datatype Pattern = Arr | CustomerCount | Tam | GrowthRate

  const PATTERNS: seq<Pattern> := [Arr, CustomerCount, Tam, GrowthRate]

  function CategoryOf(pattern: Pattern): ClaimCategory {
    match pattern
    case Arr => Revenue
    case CustomerCount => Traction
    case Tam => Market
    case GrowthRate => Traction
  }

  datatype Unit = Eur | Gbp | Usd | Count | Percent

  /** The whole match and its first group. */
  datatype Match = Match(whole: string, value: string)

  /** The library's part: line breaks, white space, pattern search, injection test, `Decimal`. Nothing is assumed of it. */
  datatype Rules = Rules(
    breaks: char -> bool, space: char -> bool, search: (Pattern, string) -> Option<Match>, suspicious: string -> bool,
    decimal: string -> Option<real>)

  /** A claim as extracted; `pattern` is absent for the product summary. */
  datatype ExtractedClaim = ExtractedClaim(
    category: ClaimCategory, pattern: Option<Pattern>, text: string, value: Option<real>, unit: Option<Unit>,
    page: nat, snippet: string, confidence: real, unverifiable: bool)

  // ---------------------------------------------------------------- lines

  function FirstBreak(rules: Rules, text: string): (i: nat)
    ensures i <= |text|
    ensures i < |text| ==> rules.breaks(text[i])
  {
    if text == [] || rules.breaks(text[0]) then 0 else 1 + FirstBreak(rules, text[1..])
  }

  function Lines(rules: Rules, text: string): seq<string> {
    var i := FirstBreak(rules, text);
    if i == |text| then [text] else [text[..i]] + Lines(rules, text[i + 1..])
  }

  function Lstrip(space: char -> bool, text: string): string {
    if text != [] && space(text[0]) then Lstrip(space, text[1..]) else text
  }

  function Rstrip(space: char -> bool, text: string): string {
    if text != [] && space(text[|text| - 1]) then Rstrip(space, text[..|text| - 1]) else text
  }

  function Strip(space: char -> bool, text: string): string {
    Rstrip(space, Lstrip(space, text))
  }

  function UnitOf(pattern: Pattern, value: string): Unit {
    match pattern
    case Arr => CurrencyOf(value)
    case Tam => CurrencyOf(value)
    case CustomerCount => Count
    case GrowthRate => Percent
  }

  function CurrencyOf(value: string): Unit {
    if '\U{20AC}' in value then Eur else if '\U{A3}' in value then Gbp else Usd
  }

  // ---------------------------------------------------------------- compact numbers

  predicate Dropped(c: char) {
    c in {'$', '\U{20AC}', '\U{A3}', ','}
  }

  /** Currency signs and commas are dropped wherever they stand. */
  function Cleaned(text: string): string {
    if text == "" then "" else Cleaned(text[..|text| - 1]) + if Dropped(text[|text| - 1]) then "" else [text[|text| - 1]]
  }

  /** The multiplier of a last character, read without regard to case; 1 when it is none. */
  function FactorOf(c: char): real {
    if c in {'k', 'K', '\U{212A}'} then 1000.0
    else if c in {'m', 'M'} then 1000000.0
    else if c in {'b', 'B'} then 1000000000.0
    else 1.0
  }

  function Scaled(rules: Rules, digits: string, factor: real): Option<real> {
    match rules.decimal(digits)
    case None => None
    case Some(x) => Some(Times(x, factor))
  }

  function Compact(rules: Rules, text: string): Option<real> {
    var cleaned := Strip(rules.space, Cleaned(text));
    if cleaned != "" && FactorOf(cleaned[|cleaned| - 1]) != 1.0
    then Scaled(rules, cleaned[..|cleaned| - 1], FactorOf(cleaned[|cleaned| - 1]))
    else Scaled(rules, cleaned, 1.0)
  }

  method ParseCompactNumber(rules: Rules, value: string) returns (number: Option<real>)
    ensures number == Compact(rules, value)
  {
    var cleaned := Strip(rules.space, Cleaned(value));
    var multiplier := 1.0;
    if cleaned != "" && cleaned[|cleaned| - 1] in {'k', 'K', '\U{212A}'} {
      multiplier := 1000.0;
      cleaned := cleaned[..|cleaned| - 1];
    } else if cleaned != "" && cleaned[|cleaned| - 1] in {'m', 'M'} {
      multiplier := 1000000.0;
      cleaned := cleaned[..|cleaned| - 1];
    } else if cleaned != "" && cleaned[|cleaned| - 1] in {'b', 'B'} {
      multiplier := 1000000000.0;
      cleaned := cleaned[..|cleaned| - 1];
    }
    number := Scaled(rules, cleaned, multiplier);
  }

  lemma {:induction false} CleanedAppend(a: string, b: string)
    ensures Cleaned(a + b) == Cleaned(a) + Cleaned(b)
  {
    if b == "" {
      assert a + b == a;
    } else {
      assert (a + b)[..|a + b| - 1] == a + b[..|b| - 1];
      CleanedAppend(a, b[..|b| - 1]);
    }
  }

  /**
    * A comma never matters, also where it stands for the decimal point: "1,5M", which the patterns accept, is
    * read like "15M".
    */
  lemma CommasNeverMatter(rules: Rules, before: string, after: string)
    ensures Compact(rules, before + "," + after) == Compact(rules, before + after)
  {
    assert ","[..0] == "";
    assert Cleaned(",") == "";
    CleanedAppend(before + ",", after);
    CleanedAppend(before, ",");
    CleanedAppend(before, after);
    assert Cleaned(before) + "" == Cleaned(before);
  }

  predicate Plain(rules: Rules, c: char) {
    !Dropped(c) && !rules.space(c)
  }

  lemma {:induction false} CleanedPlain(rules: Rules, text: string)
    requires forall i :: 0 <= i < |text| ==> Plain(rules, text[i])
    ensures Cleaned(text) == text && Strip(rules.space, text) == text
  {
    if text != "" {
      CleanedPlain(rules, text[..|text| - 1]);
      assert text == text[..|text| - 1] + [text[|text| - 1]];
    }
  }

  /** The scale a last letter stands for, in either case; the Kelvin sign lower-cases to a `k`. */
  function ScaleOf(suffix: string): Option<real> {
    if suffix == "" then Some(1.0)
    else if suffix == "k" || suffix == "K" || suffix == "\U{212A}" then Some(1000.0)
    else if suffix == "m" || suffix == "M" then Some(1000000.0)
    else if suffix == "b" || suffix == "B" then Some(1000000000.0)
    else None
  }

  /**
    * A figure reads as printed: a currency sign or none, digits without letters, signs or blanks, and a scale
    * letter or none stand for what `Decimal` makes of the digits times the scale.
    */
  lemma FigureReads(rules: Rules, sign: string, digits: string, suffix: string)
    requires sign == "" || sign == "$" || sign == "\U{20AC}" || sign == "\U{A3}"
    requires forall i :: 0 <= i < |digits| ==> Plain(rules, digits[i])
    requires ScaleOf(suffix).Some? && forall i :: 0 <= i < |suffix| ==> Plain(rules, suffix[i])
    requires digits != "" && (suffix == "" ==> ScaleOf([digits[|digits| - 1]]).None?)
    ensures Compact(rules, sign + digits + suffix) ==
      if rules.decimal(digits).None? then None else Some(Times(rules.decimal(digits).value, ScaleOf(suffix).value))
  {
    var body := digits + suffix;
    SignAndBody(rules, sign, digits, suffix);
    hide Cleaned, Strip, Plain, FactorOf, ScaleOf, Scaled;
    LastLetter(digits, suffix);
    ScaledReads(rules, digits, ScaleOf(suffix).value);
    assert body != "";
  }

  lemma SignAndBody(rules: Rules, sign: string, digits: string, suffix: string)
    requires sign == "" || sign == "$" || sign == "\U{20AC}" || sign == "\U{A3}"
    requires forall i :: 0 <= i < |digits| ==> Plain(rules, digits[i])
    requires forall i :: 0 <= i < |suffix| ==> Plain(rules, suffix[i])
    ensures Strip(rules.space, Cleaned(sign + digits + suffix)) == digits + suffix
  {
    var body := digits + suffix;
    assert sign + digits + suffix == sign + body;
    CleanedAppend(sign, body);
    forall i | 0 <= i < |body| ensures Plain(rules, body[i]) { }
    hide Plain;
    CleanedPlain(rules, body);
    SignDropped(sign);
    assert Cleaned(sign) + Cleaned(body) == body;
    hide Cleaned, Strip;
  }

  lemma ScaledReads(rules: Rules, digits: string, factor: real)
    ensures Scaled(rules, digits, factor) ==
      if rules.decimal(digits).None? then None else Some(Times(rules.decimal(digits).value, factor))
  {
  }

  lemma SignDropped(sign: string)
    requires sign == "" || sign == "$" || sign == "\U{20AC}" || sign == "\U{A3}"
    ensures Cleaned(sign) == ""
  {
    if sign != "" {
      assert sign[..0] == "" && |sign| == 1 && Dropped(sign[0]);
      assert Cleaned(sign[..0]) == "";
    }
  }

  lemma ScaleOfLetter(c: char)
    ensures ScaleOf([c]) == if FactorOf(c) == 1.0 then None else Some(FactorOf(c))
  {
    assert [c][0] == c;
    assert c == 'k' <==> [c] == "k";
    assert c == 'K' <==> [c] == "K";
    assert c == '\U{212A}' <==> [c] == "\U{212A}";
    assert c == 'm' <==> [c] == "m";
    assert c == 'M' <==> [c] == "M";
    assert c == 'b' <==> [c] == "b";
    assert c == 'B' <==> [c] == "B";
  }

  lemma LastLetter(digits: string, suffix: string)
    requires ScaleOf(suffix).Some? && digits != "" && (suffix == "" ==> ScaleOf([digits[|digits| - 1]]).None?)
    ensures
      var body := digits + suffix;
      && FactorOf(body[|body| - 1]) == ScaleOf(suffix).value
      && (suffix == "" ==> body == digits && ScaleOf(suffix).value == 1.0)
      && (suffix != "" ==> FactorOf(body[|body| - 1]) != 1.0 && body[..|body| - 1] == digits)
  {
    var body := digits + suffix;
    if suffix == "" {
      assert body == digits;
      ScaleOfLetter(digits[|digits| - 1]);
    } else {
      assert suffix == [suffix[0]];
      assert body[|body| - 1] == suffix[0] && body[..|body| - 1] == digits;
      ScaleOfLetter(suffix[0]);
    }
  }

  // ---------------------------------------------------------------- claims from lines

  function ClaimFor(rules: Rules, page: nat, line: string, pattern: Pattern, found: Match): ExtractedClaim {
    ExtractedClaim(CategoryOf(pattern), Some(pattern), Take(line, 500),
      Compact(rules, found.value), Some(UnitOf(pattern, found.value)), page, found.whole,
      if rules.suspicious(line) then 0.30 else 0.82, rules.suspicious(line))
  }

  /** What one pattern finds on a line, past the provenance gate. */
  function Found(rules: Rules, page: nat, line: string, pattern: Pattern): Option<ExtractedClaim> {
    match rules.search(pattern, line)
    case None => None
    case Some(found) => if Text.Contains(line, found.whole) then Some(ClaimFor(rules, page, line, pattern, found)) else None
  }

  function AsSeq<T>(value: Option<T>): seq<T> {
    if value.None? then [] else [value.value]
  }

  function OfPatterns(rules: Rules, page: nat, line: string, patterns: seq<Pattern>): seq<ExtractedClaim> {
    if patterns == [] then []
    else
      OfPatterns(rules, page, line, patterns[..|patterns| - 1]) + AsSeq(Found(rules, page, line, patterns[|patterns| - 1]))
  }

  function OfLine(rules: Rules, page: nat, raw: string): seq<ExtractedClaim> {
    var line := Strip(rules.space, raw);
    if line == "" then [] else OfPatterns(rules, page, line, PATTERNS)
  }

  function OfLines(rules: Rules, page: nat, lines: seq<string>): seq<ExtractedClaim> {
    if lines == [] then [] else OfLines(rules, page, lines[..|lines| - 1]) + OfLine(rules, page, lines[|lines| - 1])
  }

  function OfPages(rules: Rules, pages: seq<Page>): seq<ExtractedClaim> {
    if pages == [] then []
    else
      var page := pages[|pages| - 1];
      OfPages(rules, pages[..|pages| - 1]) + OfLines(rules, page.number, Lines(rules, page.text))
  }

  method ExtractClaims(rules: Rules, pages: seq<Page>) returns (claims: seq<ExtractedClaim>)
    ensures claims == OfPages(rules, pages)
  {
    claims := [];
    for i := 0 to |pages|
      invariant claims == OfPages(rules, pages[..i])
    {
      assert pages[..i + 1][..i] == pages[..i];
      var fromPage := ExtractFromPage(rules, pages[i]);
      claims := claims + fromPage;
    }
    assert pages[..|pages|] == pages;
  }

  method ExtractFromPage(rules: Rules, page: Page) returns (claims: seq<ExtractedClaim>)
    ensures claims == OfLines(rules, page.number, Lines(rules, page.text))
  {
    var lines := Lines(rules, page.text);
    claims := [];
    for i := 0 to |lines|
      invariant claims == OfLines(rules, page.number, lines[..i])
    {
      assert lines[..i + 1][..i] == lines[..i];
      var line := Strip(rules.space, lines[i]);
      if line != "" {
        var fromLine := ExtractFromLine(rules, page.number, line);
        claims := claims + fromLine;
      }
    }
    assert lines[..|lines|] == lines;
  }

  method ExtractFromLine(rules: Rules, page: nat, line: string) returns (claims: seq<ExtractedClaim>)
    ensures claims == OfPatterns(rules, page, line, PATTERNS)
  {
    var injected := rules.suspicious(line);
    claims := [];
    for i := 0 to |PATTERNS|
      invariant claims == OfPatterns(rules, page, line, PATTERNS[..i])
    {
      assert PATTERNS[..i + 1][..i] == PATTERNS[..i];
      var pattern := PATTERNS[i];
      var found := rules.search(pattern, line);
      if found.None? || !Text.Contains(line, found.value.whole) {
        continue;
      }
      var value := ParseCompactNumber(rules, found.value.value);
      claims := claims + [ExtractedClaim(CategoryOf(pattern), Some(pattern), Take(line, 500), value,
        Some(UnitOf(pattern, found.value.value)), page, found.value.whole, if injected then 0.30 else 0.82, injected)];
    }
    assert PATTERNS[..|PATTERNS|] == PATTERNS;
  }

  // ---------------------------------------------------------------- exactly which claims

  lemma {:induction false} InOfPatterns(rules: Rules, page: nat, line: string, patterns: seq<Pattern>, c: ExtractedClaim)
    ensures c in OfPatterns(rules, page, line, patterns) <==>
      exists pattern <- patterns :: Found(rules, page, line, pattern) == Some(c)
  {
    hide Found;
    if patterns != [] {
      var n := |patterns| - 1;
      InOfPatterns(rules, page, line, patterns[..n], c);
      assert forall p :: p in patterns <==> p in patterns[..n] || p == patterns[n];
    }
  }

  ghost predicate FoundOn(rules: Rules, page: nat, raw: string, c: ExtractedClaim) {
    var line := Strip(rules.space, raw);
    line != "" && exists pattern <- PATTERNS :: Found(rules, page, line, pattern) == Some(c)
  }

  lemma InOfLine(rules: Rules, page: nat, raw: string, c: ExtractedClaim)
    ensures c in OfLine(rules, page, raw) <==> FoundOn(rules, page, raw, c)
  {
    hide Found, Strip, OfPatterns;
    InOfPatterns(rules, page, Strip(rules.space, raw), PATTERNS, c);
  }

  ghost predicate FoundOnSome(rules: Rules, page: nat, lines: seq<string>, c: ExtractedClaim) {
    exists i :: 0 <= i < |lines| && FoundOn(rules, page, lines[i], c)
  }

  lemma {:induction false} InOfLines(rules: Rules, page: nat, lines: seq<string>, c: ExtractedClaim)
    ensures c in OfLines(rules, page, lines) <==> FoundOnSome(rules, page, lines, c)
  {
    if lines != [] {
      var n := |lines| - 1;
      SomeStep(rules, page, lines, c);
      InOfLines(rules, page, lines[..n], c);
      InOfLine(rules, page, lines[n], c);
      hide FoundOnSome, FoundOn, OfLine;
      assert OfLines(rules, page, lines) == OfLines(rules, page, lines[..n]) + OfLine(rules, page, lines[n]);
    }
  }

  lemma SomeStep(rules: Rules, page: nat, lines: seq<string>, c: ExtractedClaim)
    requires lines != []
    ensures
      var n := |lines| - 1;
      FoundOnSome(rules, page, lines, c) <==> FoundOnSome(rules, page, lines[..n], c) || FoundOn(rules, page, lines[n], c)
  {
    hide FoundOn;
    var n := |lines| - 1;
    assert forall i :: 0 <= i < n ==> lines[..n][i] == lines[i];
  }

  ghost predicate FoundOnPage(rules: Rules, page: Page, c: ExtractedClaim) {
    FoundOnSome(rules, page.number, Lines(rules, page.text), c)
  }

  lemma {:induction false} PageOf(rules: Rules, pages: seq<Page>, c: ExtractedClaim) returns (i: nat)
    requires c in OfPages(rules, pages)
    ensures i < |pages| && c in OfLines(rules, pages[i].number, Lines(rules, pages[i].text))
  {
    var n := |pages| - 1;
    if c in OfPages(rules, pages[..n]) { i := PageOf(rules, pages[..n], c); } else { i := n; }
  }

  lemma {:induction false} PageGives(rules: Rules, pages: seq<Page>, i: nat, c: ExtractedClaim)
    requires i < |pages| && c in OfLines(rules, pages[i].number, Lines(rules, pages[i].text))
    ensures c in OfPages(rules, pages)
  {
    if i < |pages| - 1 { PageGives(rules, pages[..|pages| - 1], i, c); }
  }

  /** A claim is extracted exactly when some pattern finds it, past the gate, on a non-blank line of some page. */
  lemma ExtractedIffFound(rules: Rules, pages: seq<Page>, c: ExtractedClaim)
    ensures c in OfPages(rules, pages) <==> exists i :: 0 <= i < |pages| && FoundOnPage(rules, pages[i], c)
  {
    if c in OfPages(rules, pages) {
      var i := PageOf(rules, pages, c);
      InOfLines(rules, pages[i].number, Lines(rules, pages[i].text), c);
    }
    if i :| 0 <= i < |pages| && FoundOnPage(rules, pages[i], c) {
      InOfLines(rules, pages[i].number, Lines(rules, pages[i].text), c);
      PageGives(rules, pages, i, c);
    }
  }

  // ---------------------------------------------------------------- provenance

  lemma ContainsAt(text: string, before: string, part: string, after: string)
    requires text == before + part + after
    ensures Text.Contains(text, part)
  {
    assert Text.OccursAt(text, part, |before|);
  }

  lemma SliceOfSlice(text: string, i: nat, i': nat, j: nat, j': nat)
    requires i <= i' <= |text| && j <= j' <= i' - i
    ensures text[i..i'][j..j'] == text[i + j..i + j']
  {
    var s, t := text[i..i'][j..j'], text[i + j..i + j'];
    forall k | 0 <= k < j' - j ensures s[k] == t[k] {
      assert s[k] == text[i..i'][j + k] == text[i + (j + k)];
    }
  }

  lemma ContainsTransitive(text: string, middle: string, part: string)
    requires Text.Contains(text, middle) && Text.Contains(middle, part)
    ensures Text.Contains(text, part)
  {
    var i :| 0 <= i <= |text| && Text.OccursAt(text, middle, i);
    var j :| 0 <= j <= |middle| && Text.OccursAt(middle, part, j);
    SliceOfSlice(text, i, i + |middle|, j, j + |part|);
    assert Text.OccursAt(text, part, i + j);
  }

  lemma {:induction false} LinesAreParts(rules: Rules, text: string, raw: string)
    requires raw in Lines(rules, text)
    ensures Text.Contains(text, raw)
  {
    var i := FirstBreak(rules, text);
    if i == |text| {
      ContainsAt(text, "", text, "");
    } else if raw == text[..i] {
      ContainsAt(text, "", raw, text[i..]);
    } else {
      LinesAreParts(rules, text[i + 1..], raw);
      ContainsAt(text, text[..i + 1], text[i + 1..], "");
      ContainsTransitive(text, text[i + 1..], raw);
    }
  }

  lemma {:induction false} LstripIsPart(space: char -> bool, text: string)
    ensures Text.Contains(text, Lstrip(space, text))
  {
    if text != [] && space(text[0]) {
      LstripIsPart(space, text[1..]);
      ContainsAt(text, text[..1], text[1..], "");
      ContainsTransitive(text, text[1..], Lstrip(space, text[1..]));
    } else {
      ContainsAt(text, "", text, "");
    }
  }

  lemma {:induction false} RstripIsPart(space: char -> bool, text: string)
    ensures Text.Contains(text, Rstrip(space, text))
  {
    if text != [] && space(text[|text| - 1]) {
      RstripIsPart(space, text[..|text| - 1]);
      ContainsAt(text, "", text[..|text| - 1], text[|text| - 1..]);
      ContainsTransitive(text, text[..|text| - 1], Rstrip(space, text[..|text| - 1]));
    } else {
      ContainsAt(text, "", text, "");
    }
  }

  lemma LineIsPart(rules: Rules, text: string, raw: string)
    requires raw in Lines(rules, text)
    ensures Text.Contains(text, Strip(rules.space, raw))
  {
    var lead := Lstrip(rules.space, raw);
    LinesAreParts(rules, text, raw);
    LstripIsPart(rules.space, raw);
    RstripIsPart(rules.space, lead);
    ContainsTransitive(text, raw, lead);
    ContainsTransitive(text, lead, Strip(rules.space, raw));
  }

  /**
    * Provenance: whatever the patterns report, every extracted claim quotes a passage that stands, character
    * for character, on the page it names; and it comes from an injected line exactly when it is unverifiable,
    * at the lower confidence.
    */
  lemma Provenance(rules: Rules, pages: seq<Page>, c: ExtractedClaim)
    requires c in OfPages(rules, pages)
    ensures exists page <- pages :: page.number == c.page && Text.Contains(page.text, c.snippet)
    ensures c.confidence == if c.unverifiable then 0.30 else 0.82
    ensures |c.text| <= 500
  {
    ExtractedIffFound(rules, pages, c);
    var i :| 0 <= i < |pages| && FoundOnPage(rules, pages[i], c);
    var page, lines := pages[i], Lines(rules, pages[i].text);
    var k :| 0 <= k < |lines| && FoundOn(rules, page.number, lines[k], c);
    var raw := lines[k];
    LineIsPart(rules, page.text, raw);
    ContainsTransitive(page.text, Strip(rules.space, raw), c.snippet);
  }

  /**
    * What an extracted claim says was read off one match on one line: its number is the number in the match, its
    * unit the currency the match shows (dollars when it shows none), customers, or per cent.
    */
  lemma ReadOff(rules: Rules, pages: seq<Page>, c: ExtractedClaim) returns (page: Page, line: string, found: Match)
    requires c in OfPages(rules, pages)
    ensures page in pages && c.page == page.number && Text.Contains(page.text, line)
    ensures c.pattern.Some? && rules.search(c.pattern.value, line) == Some(found) && Text.Contains(line, found.whole)
    ensures c.snippet == found.whole && c.text == Take(line, 500) && c.value == Compact(rules, found.value)
    ensures c.unverifiable <==> rules.suspicious(line)
    ensures c.pattern.value in {Arr, Tam} ==>
      && (c.unit == Some(Eur) <==> '\U{20AC}' in found.value)
      && (c.unit == Some(Usd) <==> '\U{20AC}' !in found.value && '\U{A3}' !in found.value)
      && c.unit in {Some(Eur), Some(Gbp), Some(Usd)}
    ensures c.pattern == Some(CustomerCount) ==> c.unit == Some(Count)
    ensures c.pattern == Some(GrowthRate) ==> c.unit == Some(Percent)
  {
    ExtractedIffFound(rules, pages, c);
    var i :| 0 <= i < |pages| && FoundOnPage(rules, pages[i], c);
    page := pages[i];
    var lines := Lines(rules, page.text);
    var k :| 0 <= k < |lines| && FoundOn(rules, page.number, lines[k], c);
    line := Strip(rules.space, lines[k]);
    LineIsPart(rules, page.text, lines[k]);
    var pattern :| pattern in PATTERNS && Found(rules, page.number, line, pattern) == Some(c);
    found := rules.search(pattern, line).value;
  }

  // ---------------------------------------------------------------- the product summary

  function FirstLong(rules: Rules, lines: seq<string>): Option<string> {
    if lines == [] then None
    else
      var before := FirstLong(rules, lines[..|lines| - 1]);
      var line := Strip(rules.space, lines[|lines| - 1]);
      if before.Some? then before else if |line| >= 12 then Some(line) else None
  }

  function Summary(page: nat, line: string): ExtractedClaim {
    ExtractedClaim(Product, None, Take(line, 500), None, None, page, Take(line, 400), 0.72, false)
  }

  function ProductClaim(rules: Rules, pages: seq<Page>): Option<ExtractedClaim> {
    if pages == [] then None
    else
      var before := ProductClaim(rules, pages[..|pages| - 1]);
      var page := pages[|pages| - 1];
      if before.Some? then before
      else
        match FirstLong(rules, Lines(rules, page.text))
        case None => None
        case Some(line) => Some(Summary(page.number, line))
  }

  lemma {:induction false} LongLine(rules: Rules, lines: seq<string>)
    ensures FirstLong(rules, lines).Some? <==> exists raw <- lines :: |Strip(rules.space, raw)| >= 12
    ensures FirstLong(rules, lines).Some? ==> exists raw <- lines :: Strip(rules.space, raw) == FirstLong(rules, lines).value
  {
    if lines != [] {
      var n := |lines| - 1;
      LongLine(rules, lines[..n]);
      assert forall raw :: raw in lines <==> raw in lines[..n] || raw == lines[n];
    }
  }

  ghost predicate HasLongLine(rules: Rules, page: Page) {
    exists raw <- Lines(rules, page.text) :: |Strip(rules.space, raw)| >= 12
  }

  /** What one page offers: a long line if it has one, and its first 400 characters stand on the page. */
  lemma PageOffers(rules: Rules, page: Page)
    ensures
      var line := FirstLong(rules, Lines(rules, page.text));
      && (line.Some? <==> HasLongLine(rules, page))
      && (line.Some? ==> Text.Contains(page.text, Take(line.value, 400)))
  {
    hide Lines, FirstLong, Strip, Text.Contains, Take;
    var lines := Lines(rules, page.text);
    LongLine(rules, lines);
    if FirstLong(rules, lines).Some? {
      var raw :| raw in lines && Strip(rules.space, raw) == FirstLong(rules, lines).value;
      LineIsPart(rules, page.text, raw);
      StartIsPart(page.text, Strip(rules.space, raw), 400);
    }
  }

  lemma StartIsPart(text: string, line: string, n: nat)
    requires Text.Contains(text, line)
    ensures Text.Contains(text, Take(line, n))
  {
    var start := Take(line, n);
    assert line == "" + start + line[|start|..];
    ContainsAt(line, "", start, line[|start|..]);
    ContainsTransitive(text, line, start);
  }

  /** A summary is drawn exactly when some page has a line of twelve characters. */
  lemma {:induction false} SummaryIff(rules: Rules, pages: seq<Page>)
    ensures ProductClaim(rules, pages).Some? <==> exists i :: 0 <= i < |pages| && HasLongLine(rules, pages[i])
  {
    hide FirstLong, Lines, HasLongLine;
    if pages != [] {
      var n := |pages| - 1;
      SummaryIff(rules, pages[..n]);
      PageOffers(rules, pages[n]);
      assert forall i :: 0 <= i < n ==> pages[..n][i] == pages[i];
    }
  }

  predicate Long(rules: Rules, raw: string) {
    |Strip(rules.space, raw)| >= 12
  }

  lemma {:induction false} FirstLongIsFirst(rules: Rules, lines: seq<string>) returns (k: nat)
    requires FirstLong(rules, lines).Some?
    ensures k < |lines| && Strip(rules.space, lines[k]) == FirstLong(rules, lines).value && Long(rules, lines[k])
    ensures forall j :: 0 <= j < k ==> !Long(rules, lines[j])
  {
    var n := |lines| - 1;
    if FirstLong(rules, lines[..n]).Some? {
      k := FirstLongIsFirst(rules, lines[..n]);
    } else {
      k := n;
      LongLine(rules, lines[..n]);
      forall j | 0 <= j < n ensures !Long(rules, lines[j]) { assert lines[j] == lines[..n][j] && lines[..n][j] in lines[..n]; }
    }
  }

  /** The summary is the first long line of the first page that has one. */
  lemma {:induction false} SummaryIsFirst(rules: Rules, pages: seq<Page>) returns (i: nat, k: nat)
    requires ProductClaim(rules, pages).Some?
    ensures i < |pages| && forall j :: 0 <= j < i ==> !HasLongLine(rules, pages[j])
    ensures
      var lines := Lines(rules, pages[i].text);
      && k < |lines| && Long(rules, lines[k]) && (forall j :: 0 <= j < k ==> !Long(rules, lines[j]))
      && ProductClaim(rules, pages).value.text == Take(Strip(rules.space, lines[k]), 500)
      && ProductClaim(rules, pages).value.page == pages[i].number
  {
    var n := |pages| - 1;
    SummaryIff(rules, pages[..n]);
    hide FirstLong, Lines, HasLongLine, Long, Strip;
    if ProductClaim(rules, pages[..n]).Some? {
      i, k := SummaryIsFirst(rules, pages[..n]);
      assert forall j :: 0 <= j < i ==> pages[j] == pages[..n][j];
    } else {
      i := n;
      k := FirstLongIsFirst(rules, Lines(rules, pages[n].text));
      assert forall j :: 0 <= j < n ==> pages[j] == pages[..n][j];
    }
  }

  /** A line ends at the first break, and the text after it is read on; without a break the text is one line. */
  lemma {:induction false} LinesAre(rules: Rules, line: string, mark: char, rest: string)
    requires (forall i :: 0 <= i < |line| ==> !rules.breaks(line[i])) && rules.breaks(mark)
    ensures Lines(rules, line) == [line]
    ensures Lines(rules, line + [mark] + rest) == [line] + Lines(rules, rest)
  {
    var text := line + [mark] + rest;
    BreakAt(rules, line, []);
    BreakAt(rules, line, [mark] + rest);
    assert line + [] == line && line + ([mark] + rest) == text;
    assert text[..|line|] == line && text[|line| + 1..] == rest;
  }

  lemma {:induction false} BreakAt(rules: Rules, line: string, rest: string)
    requires forall i :: 0 <= i < |line| ==> !rules.breaks(line[i])
    requires rest == [] || rules.breaks(rest[0])
    ensures FirstBreak(rules, line + rest) == |line|
  {
    var text := line + rest;
    if line != [] {
      assert text[0] == line[0] && text[1..] == line[1..] + rest;
      BreakAt(rules, line[1..], rest);
    } else {
      assert text == rest;
    }
  }

  /** Stripping takes the blanks off both ends and nothing else. */
  lemma StripIs(rules: Rules, before: string, text: string, after: string)
    requires forall i :: 0 <= i < |before| ==> rules.space(before[i])
    requires forall i :: 0 <= i < |after| ==> rules.space(after[i])
    requires text == "" || (!rules.space(text[0]) && !rules.space(text[|text| - 1]))
    ensures Strip(rules.space, before + text + after) == text
  {
    StripLeft(rules, before, text + after);
    assert before + (text + after) == before + text + after;
    if text == "" {
      assert text + after == after;
      StripLeft(rules, after, "");
      assert after + "" == after;
    } else {
      assert (text + after)[0] == text[0];
      StripRight(rules, text, after);
    }
  }

  lemma {:induction false} StripLeft(rules: Rules, before: string, text: string)
    requires forall i :: 0 <= i < |before| ==> rules.space(before[i])
    ensures Lstrip(rules.space, before + text) == Lstrip(rules.space, text)
  {
    if before == "" {
      assert before + text == text;
    } else {
      assert (before + text)[1..] == before[1..] + text;
      StripLeft(rules, before[1..], text);
    }
  }

  lemma {:induction false} StripRight(rules: Rules, text: string, after: string)
    requires forall i :: 0 <= i < |after| ==> rules.space(after[i])
    requires text != "" && !rules.space(text[|text| - 1])
    ensures Rstrip(rules.space, text + after) == text
  {
    if after == "" {
      assert text + after == text;
    } else {
      var n := |after| - 1;
      assert (text + after)[..|text| + n] == text + after[..n];
      StripRight(rules, text, after[..n]);
    }
  }

  /** It too quotes the page it names. */
  lemma {:induction false} SummaryQuotes(rules: Rules, pages: seq<Page>) returns (i: nat)
    requires ProductClaim(rules, pages).Some?
    ensures ProductClaim(rules, pages).value.confidence == 0.72
    ensures i < |pages| && pages[i].number == ProductClaim(rules, pages).value.page
    ensures Text.Contains(pages[i].text, ProductClaim(rules, pages).value.snippet)
  {
    hide FirstLong, Lines, HasLongLine;
    var n := |pages| - 1;
    if ProductClaim(rules, pages[..n]).Some? {
      i := SummaryQuotes(rules, pages[..n]);
    } else {
      PageOffers(rules, pages[n]);
      i := n;
    }
  }

  // ---------------------------------------------------------------- from pages to a recommendation

  function Everything(rules: Rules, pages: seq<Page>): seq<ExtractedClaim> {
    OfPages(rules, pages) + AsSeq(ProductClaim(rules, pages))
  }

  function ForScreening(claims: seq<ExtractedClaim>): seq<Screening.Extracted> {
    if claims == [] then []
    else
      var c := claims[|claims| - 1];
      ForScreening(claims[..|claims| - 1]) + [Screening.Extracted(c.category, c.confidence, c.unverifiable)]
  }

  lemma {:induction false} ConfidenceCarries(claims: seq<ExtractedClaim>)
    requires forall c <- claims :: c.confidence <= 0.82
    ensures forall item <- ForScreening(claims) :: item.confidence <= 0.82
  {
    if claims != [] { ConfidenceCarries(claims[..|claims| - 1]); }
  }

  lemma ConfidencesAreLow(rules: Rules, pages: seq<Page>)
    ensures forall item <- ForScreening(Everything(rules, pages)) :: item.confidence <= 0.82
  {
    var claims := Everything(rules, pages);
    if ProductClaim(rules, pages).Some? {
      var i := SummaryQuotes(rules, pages);
    }
    forall c | c in claims ensures c.confidence <= 0.82 {
      if c in OfPages(rules, pages) { Provenance(rules, pages, c); }
    }
    ConfidenceCarries(claims);
  }

  /**
    * From the text of a deck to the advice: whatever the pages say, a first screening on the claims extracted
    * from them never escalates for a contradiction and recommends PASS exactly when a thesis gate fired.
    */
  lemma DeckTextToAdvice(rules: Rules, pages: seq<Page>, exp: real -> real, document: string, ageDays: int,
                             fold: string -> string, company: Thesis.Company, thesis: Option<Thesis.ThesisSpec>,
                             rows: seq<Screening.FounderRow>)
    requires Analysis.ExpLike(exp) && Screening.InRange(rows)
    ensures
      var items := ForScreening(Everything(rules, pages));
      var advice := Screening.Screen(rows, Screening.DeckClaims(exp, items, document, ageDays),
        Screening.FitOf(fold, company, thesis));
      && advice.rationale != Recommendation.CriticalContradiction
      && (advice.decision == Pass <==> Screening.FitOf(fold, company, thesis).gate.Some?)
  {
    ConfidencesAreLow(rules, pages);
    Screening.DeckScreening(exp, ForScreening(Everything(rules, pages)), document, ageDays, fold, company, thesis, rows);
  }
}
