/** The older string nodes at the repository root (WildPromptor.py): Prompt
    Concat without stripping and with every category input added a second
    time line by line, Prompt Builder with "," glue, and Keyword Picker over
    one text split on ",". */
module LegacyPromptTools {
  import opened Wrappers
  import opened Text
  import opened PyRandom
  import opened Wordlist
  import opened PyList
  import opened PromptTools

  // ---------------------------------------------------------- Prompt Concat

  /** The inputs that are not empty, unstripped: `if part and ...`. */
  function Truthy(xs: seq<string>): (r: seq<string>)
    ensures forall x | x in r :: x in xs && x != ""
    ensures forall x | x in xs && x != "" :: x in r
  {
    if xs == [] then []
    else (if xs[0] != "" then [xs[0]] else []) + Truthy(xs[1..])
  }

  /** The lines each non-empty category input adds: `part.split('\n')`. */
  function Expanded(values: seq<string>): seq<string> {
    if values == [] then []
    else (if values[0] != "" then Split(values[0], "\n") else []) + Expanded(values[1..])
  }

  /** The list `process_prompt` builds before de-duplication. */
  function LegacyParts(prefix: string, values: seq<string>, suffix: string): seq<string> {
    Truthy([prefix] + values + [suffix]) + Expanded(values) + (if suffix != "" then [suffix] else [])
  }

  /** "comma" and "space" pick their separator; anything else is a newline. */
  function LegacySeparator(name: string): string {
    if name == "comma" then ", " else if name == "space" then " " else "\n"
  }

  /** `PromptConcatNode.process_prompt` as a value. */
  function LegacyConcat(prefix: string, values: seq<string>, suffix: string, separator: string,
                        removeDuplicates: bool, sort: bool): string {
    if Truthy([prefix] + values + [suffix]) == [] then ""
    else
      var parts := LegacyParts(prefix, values, suffix);
      var deduped := if removeDuplicates then Dedup(parts) else parts;
      var arranged := if sort then SortPinned(deduped, prefix, suffix) else deduped;
      Join(arranged, LegacySeparator(separator))
  }

  /** `PromptConcatNode.process_prompt`: filter, extend by each category
      input's lines, append the suffix again, then de-duplicate, sort, join. */
  method ProcessConcat(prefix: string, values: seq<string>, suffix: string, separator: string,
                       removeDuplicates: bool, sort: bool) returns (r: string)
    ensures r == LegacyConcat(prefix, values, suffix, separator, removeDuplicates, sort)
  {
    var parts := Truthy([prefix] + values + [suffix]);
    if parts == [] {
      return "";
    }
    var j := 0;
    while j < |values|
      invariant 0 <= j <= |values|
      invariant parts + Expanded(values[j..]) == Truthy([prefix] + values + [suffix]) + Expanded(values)
    {
      assert values[j..][1..] == values[j + 1..];
      if values[j] != "" {
        parts := parts + Split(values[j], "\n");
      }
      j := j + 1;
    }
    assert values[j..] == [];
    if suffix != "" {
      parts := parts + [suffix];
    }
    assert parts == LegacyParts(prefix, values, suffix);
    if removeDuplicates {
      parts := Dedup(parts);
    }
    if sort {
      parts := SortPinned(parts, prefix, suffix);
    }
    r := Join(parts, LegacySeparator(separator));
  }

  /** Every input empty gives the empty prompt, and only then. */
  lemma LegacyConcatEmpty(prefix: string, values: seq<string>, suffix: string, separator: string,
                          removeDuplicates: bool, sort: bool)
    ensures LegacyConcat(prefix, values, suffix, separator, removeDuplicates, sort) == ""
      <== prefix == "" && suffix == "" && forall j | 0 <= j < |values| :: values[j] == ""
    ensures Truthy([prefix] + values + [suffix]) == [] <==>
      prefix == "" && suffix == "" && forall j | 0 <= j < |values| :: values[j] == ""
  {
    var all := [prefix] + values + [suffix];
    TruthyEmpty(all);
    if forall q | 0 <= q < |all| :: all[q] == "" {
      assert prefix == all[0] && suffix == all[|all| - 1];
      forall j | 0 <= j < |values| ensures values[j] == "" {
        assert values[j] == all[j + 1];
      }
    }
    if prefix == "" && suffix == "" && forall j | 0 <= j < |values| :: values[j] == "" {
      forall q | 0 <= q < |all| ensures all[q] == "" {
        if 0 < q < |all| - 1 {
          assert all[q] == values[q - 1];
        }
      }
    }
  }

  /** Nothing is kept exactly when every input is empty. */
  lemma {:induction false} TruthyEmpty(xs: seq<string>)
    ensures Truthy(xs) == [] <==> forall q | 0 <= q < |xs| :: xs[q] == ""
  {
    if xs != [] {
      TruthyEmpty(xs[1..]);
      assert forall q | 1 <= q < |xs| :: xs[q] == xs[1..][q - 1];
    }
  }

  /** Before de-duplication a non-empty, single-line category input occurs at
      least twice, and so does a non-empty suffix. */
  lemma LegacyPartsTwice(prefix: string, values: seq<string>, suffix: string, j: nat)
    requires j < |values| && values[j] != "" && !Contains(values[j], "\n")
    ensures multiset(LegacyParts(prefix, values, suffix))[values[j]] >= 2
    ensures suffix != "" ==> multiset(LegacyParts(prefix, values, suffix))[suffix] >= 2
  {
    var all := [prefix] + values + [suffix];
    assert all[j + 1] == values[j];
    ExpandedHolds(values, j);
    assert values[j] in Truthy(all);
    if suffix != "" {
      assert all[|all| - 1] == suffix;
      assert suffix in Truthy(all);
    }
  }

  /** A non-empty single-line category input is one of the added lines. */
  lemma {:induction false} ExpandedHolds(values: seq<string>, j: nat)
    requires j < |values| && values[j] != "" && !Contains(values[j], "\n")
    ensures values[j] in Expanded(values)
    decreases j
  {
    if j == 0 {
      assert FindFrom(values[0], "\n", 0).None?;
      assert Split(values[0], "\n") == [values[0]];
    } else {
      assert values[1..][j - 1] == values[j];
      ExpandedHolds(values[1..], j - 1);
    }
  }

  // ---------------------------------------------------------- Prompt Builder

  /** `PromptBuilder.process_prompt`: `"prefix,line,suffix"` with only commas
      stripped from the ends, one per non-blank line, or `[""]`. */
  function LegacyBuild(prefix: string, body: Content, suffix: string): seq<string> {
    var text := ContentText(body);
    var lines := if text != "" then Split(text, "\n") else [];
    var records := BuildRecords(lines, prefix, suffix, ",", ",");
    if records == [] then [""] else records
  }

  /** One record per non-blank line; only commas are stripped, so spaces
      around the template survive. */
  lemma LegacyBuildOutputs(prefix: string, body: Content, suffix: string)
    ensures var text := ContentText(body);
      var kept := NonBlank(if text != "" then Split(text, "\n") else []);
      var records := LegacyBuild(prefix, body, suffix);
      && (kept == [] ==> records == [""])
      && (kept != [] ==>
            && |records| == |kept|
            && forall j | 0 <= j < |kept| :: records[j] == StripChars(prefix + "," + kept[j] + "," + suffix, ","))
      && forall r | r in records :: r == "" || (r[0] != ',' && r[|r| - 1] != ',')
  {
    var text := ContentText(body);
    var lines := if text != "" then Split(text, "\n") else [];
    BuildRecordsSpec(lines, prefix, suffix, ",", ",");
    RecordsTrimmed(lines, prefix, suffix, ",", ",");
  }

  // ---------------------------------------------------------- Keyword Picker

  /** `", ".join(keywords)` for a list, the text itself otherwise. */
  function KeywordText(keywords: Content): string {
    match keywords
    case Text(s) => s
    case Lines(items) => Join(items, ", ")
  }

  /** `[kw.strip() for kw in keywords.split(',') if kw.strip()]`. */
  function CommaKeywords(text: string): seq<string> {
    StripNonBlank(Split(text, ","))
  }

  /** Python's `xs[:n]` for any integer `n`. */
  function Prefix(xs: seq<string>, n: int): (r: seq<string>)
    ensures n >= 0 ==> r == xs[..Min(n, |xs|)]
    ensures n < 0 ==> r == xs[..if |xs| + n > 0 then |xs| + n else 0]
  {
    if n >= 0 then xs[..Min(n, |xs|)]
    else if |xs| + n > 0 then xs[..|xs| + n] else []
  }

  /** `KeywordPicker.pick_keywords`; `random.sample` raises ValueError for a
      negative count. */
  function LegacyPick(keywords: Content, pickCount: int, pickMode: string, rng: nat -> nat): Result<string> {
    var text := KeywordText(keywords);
    if IsBlank(text) || pickCount == 0 then Ok("")
    else
      var list := CommaKeywords(text);
      if list == [] then Ok("")
      else if pickMode == "Random" then
        var m := Min(pickCount, |list|);
        if m < 0 then Raise("ValueError") else Ok(Join(Sample(list, m, rng, 0), ", "))
      else Ok(Join(Prefix(list, pickCount), ", "))
  }

  /** No keyword is blank, has outer whitespace, or holds a comma. */
  lemma CommaKeywordsClean(text: string)
    ensures forall x | x in CommaKeywords(text) :: IsCleanLine(x) && forall i | 0 <= i < |x| :: x[i] != ','
  {
    var pieces := Split(text, ",");
    StripNonBlankKept(pieces);
    SplitPiecesFree(text, ",");
    forall x | x in CommaKeywords(text) ensures forall i | 0 <= i < |x| :: x[i] != ',' {
      var k :| 0 <= k < |pieces| && Strip(pieces[k]) == x;
      NoCommaInStrip(pieces[k]);
    }
  }

  /** Stripping whitespace from a piece without commas leaves none. */
  lemma NoCommaInStrip(piece: string)
    requires !Contains(piece, ",")
    ensures forall i | 0 <= i < |Strip(piece)| :: Strip(piece)[i] != ','
  {
    NoCommaChars(piece);
    var r := Trim(piece, IsSpace);
    var a := |piece| - |TrimStart(piece, IsSpace)|;
    assert r == piece[a..a + |r|];
    forall i | 0 <= i < |r| ensures r[i] != ',' {
      assert r[i] == piece[a + i];
    }
  }

  /** A string in which "," does not occur holds no ','. */
  lemma NoCommaChars(piece: string)
    requires !Contains(piece, ",")
    ensures forall i | 0 <= i < |piece| :: piece[i] != ','
  {
    forall i | 0 <= i < |piece| ensures piece[i] != ',' {
      if piece[i] == ',' {
        assert piece[i..i + 1] == [piece[i]];
        assert OccursAt(piece, ",", i);
      }
    }
  }

  /** Sequential mode takes the first `pick_count` keywords, and a negative
      count drops that many from the end, as Python slicing does; Random mode
      rejects a negative count and otherwise picks `min(pick_count, n)`
      keywords at distinct positions. */
  lemma LegacyPickModes(keywords: Content, pickCount: int, pickMode: string, rng: nat -> nat)
    requires !IsBlank(KeywordText(keywords)) && pickCount != 0
    requires CommaKeywords(KeywordText(keywords)) != []
    ensures var list := CommaKeywords(KeywordText(keywords));
      var r := LegacyPick(keywords, pickCount, pickMode, rng);
      && (pickMode != "Random" && pickCount > 0 ==> r == Ok(Join(list[..Min(pickCount, |list|)], ", ")))
      && (pickMode != "Random" && pickCount < 0 ==> r == Ok(Join(list[..if |list| + pickCount > 0 then |list| + pickCount else 0], ", ")))
      && (pickMode == "Random" && pickCount < 0 ==> r == Raise("ValueError"))
      && (pickMode == "Random" && pickCount > 0 ==>
            var m := Min(pickCount, |list|);
            var ps := SamplePositions(|list|, m, rng, 0);
            && r == Ok(Join(Sample(list, m, rng, 0), ", "))
            && Distinct(ps)
            && forall i | 0 <= i < m :: ps[i] < |list| && Sample(list, m, rng, 0)[i] == list[ps[i]])
  {
    var list := CommaKeywords(KeywordText(keywords));
    if pickMode == "Random" && pickCount > 0 {
      SampleAtDistinctPositions(list, Min(pickCount, |list|), rng, 0);
    }
  }
}
