/** The string nodes of py/WildPromptor.py: Prompt Concat, Prompt Builder and
    Keyword Picker. */
module PromptTools {
  import opened Wrappers
  import opened Text
  import opened PyRandom
  import opened Wordlist
  import opened PyList

  // ---------------------------------------------------------- Prompt Concat

  /** `{"comma": ", ", "space": " ", "newline": "\n"}[separator]`. */
  function Separator(name: string): (r: Result<string>)
    ensures r.Ok? <==> name == "comma" || name == "space" || name == "newline"
    ensures r.Ok? ==> r.value in {", ", " ", "\n"}
  {
    if name == "comma" then Ok(", ")
    else if name == "space" then Ok(" ")
    else if name == "newline" then Ok("\n")
    else Raise("KeyError")
  }

  /** The stripped, non-blank inputs: prefix, then the category inputs in
      argument order, then suffix. */
  function ConcatParts(prefix: string, values: seq<string>, suffix: string): seq<string> {
    StripNonBlank([prefix] + values + [suffix])
  }

  /** The parts Python's slicing leaves between the pinned ends:
      `parts[1:-1] if suffix else parts[1:]`. */
  function Middle(parts: seq<string>, suffix: string): seq<string> {
    if suffix != "" then (if |parts| >= 2 then parts[1..|parts| - 1] else [])
    else (if |parts| >= 1 then parts[1..] else [])
  }

  /** `[prefix] + sorted(middle) + ([suffix] if suffix else [])`, with the raw
      prefix and suffix put back at the ends. */
  function SortPinned(parts: seq<string>, prefix: string, suffix: string): seq<string> {
    [prefix] + Sort(Middle(parts, suffix)) + (if suffix != "" then [suffix] else [])
  }

  /** The list of parts `process_prompt` joins, once some input is non-blank. */
  function Arranged(prefix: string, values: seq<string>, suffix: string, removeDuplicates: bool, sort: bool): seq<string> {
    var parts := ConcatParts(prefix, values, suffix);
    var deduped := if removeDuplicates then Dedup(parts) else parts;
    if sort then SortPinned(deduped, prefix, suffix) else deduped
  }

  /** `PromptConcatNode.process_prompt`, as written. */
  function Concat(prefix: string, values: seq<string>, suffix: string, separator: string,
                  removeDuplicates: bool, sort: bool): Result<string> {
    if ConcatParts(prefix, values, suffix) == [] then Ok("")
    else
      match Separator(separator)
      case Raise(e) => Raise(e)
      case Ok(sep) => Ok(Join(Arranged(prefix, values, suffix, removeDuplicates, sort), sep))
  }

  /** The kept inputs, in order: the prefix if it is not blank, the category
      inputs that are not blank, the suffix if it is not blank, each stripped
      of its outer whitespace. */
  lemma ConcatPartsOrder(prefix: string, values: seq<string>, suffix: string)
    ensures ConcatParts(prefix, values, suffix)
      == (if IsBlank(prefix) then [] else [Strip(prefix)]) + StripNonBlank(values) + (if IsBlank(suffix) then [] else [Strip(suffix)])
    ensures forall x | x in ConcatParts(prefix, values, suffix) :: IsCleanLine(x)
  {
    StripNonBlankAppend([prefix] + values, [suffix]);
    StripNonBlankAppend([prefix], values);
    StripNonBlankOne(prefix);
    StripNonBlankOne(suffix);
    StripNonBlankKept([prefix] + values + [suffix]);
  }

  lemma StripNonBlankOne(x: string)
    ensures StripNonBlank([x]) == if IsBlank(x) then [] else [Strip(x)]
  {
    StripEmptyIffBlank(x);
    assert [x][1..] == [];
  }

  /** All-blank input gives the empty prompt, whatever the separator. */
  lemma ConcatAllBlank(prefix: string, values: seq<string>, suffix: string, separator: string,
                       removeDuplicates: bool, sort: bool)
    requires IsBlank(prefix) && IsBlank(suffix) && forall j | 0 <= j < |values| :: IsBlank(values[j])
    ensures Concat(prefix, values, suffix, separator, removeDuplicates, sort) == Ok("")
  {
    ConcatPartsOrder(prefix, values, suffix);
    assert StripNonBlank(values) == [] by {
      if StripNonBlank(values) != [] {
        var x := StripNonBlank(values)[0];
        StripNonBlankKept(values);
        assert x in StripNonBlank(values);
        var i :| 0 <= i < |values| && Strip(values[i]) == x;
        StripEmptyIffBlank(values[i]);
      }
    }
    assert ConcatParts(prefix, values, suffix) == [];
  }

  /** With `remove_duplicates`, the joined parts repeat nothing and lose no
      value; without sorting, first occurrences keep their order. */
  lemma ConcatDedup(prefix: string, values: seq<string>, suffix: string)
    ensures var parts := ConcatParts(prefix, values, suffix);
      var arranged := Arranged(prefix, values, suffix, true, false);
      NoDuplicates(arranged) && forall x :: x in arranged <==> x in parts
  {
    DedupSpec(ConcatParts(prefix, values, suffix));
  }

  /** Sorting with a clean (non-blank, already stripped) prefix and suffix and
      no de-duplication keeps the prefix first and the suffix last and puts
      the stripped non-blank category inputs in order between them. */
  lemma ConcatSortPinned(prefix: string, values: seq<string>, suffix: string)
    requires IsCleanLine(prefix) && IsCleanLine(suffix)
    ensures var arranged := Arranged(prefix, values, suffix, false, true);
      && arranged == [prefix] + Sort(StripNonBlank(values)) + [suffix]
      && SortedStr(arranged[1..|arranged| - 1])
      && multiset(arranged) == multiset(ConcatParts(prefix, values, suffix))
  {
    CleanNotBlank(prefix);
    CleanNotBlank(suffix);
    ConcatPartsOrder(prefix, values, suffix);
    var mid := StripNonBlank(values);
    var parts := ConcatParts(prefix, values, suffix);
    assert parts == [prefix] + mid + [suffix];
    assert Middle(parts, suffix) == mid;
    SortSpec(mid);
    var arranged := [prefix] + Sort(mid) + [suffix];
    assert arranged[1..|arranged| - 1] == Sort(mid);
  }

  /** A clean line is not blank and strips to itself. */
  lemma CleanNotBlank(s: string)
    requires IsCleanLine(s)
    ensures !IsBlank(s) && Strip(s) == s
  {
    TrimKeeps(s, IsSpace);
  }

  /** Sorting with a blank prefix: the first kept input is dropped and an
      empty part is put in front. `Concat("", ["b", "a"], "", "comma", false,
      true)` gives ", a" and "b" is lost. */
  lemma ConcatSortDropsFirstPart()
    ensures Concat("", ["b", "a"], "", "comma", false, true) == Ok(", a")
  {
    TwoCleanParts("b", "a");
    SortPinnedDrops("b", "a");
    assert Join(["", "a"], ", ") == "" + ", " + Join(["a"], ", ") == ", a";
  }

  /** The written sort of two parts with a blank prefix and suffix puts ""
      in front of the sorted second part. */
  lemma SortPinnedDrops(x: string, y: string)
    ensures SortPinned([x, y], "", "") == ["", y]
  {
    assert Middle([x, y], "") == [y];
    assert Sort([y]) == Insert(y, Sort([])) == [y];
  }

  /** Two clean strings pass `StripNonBlank` unchanged. */
  lemma TwoCleanKept(x: string, y: string)
    requires IsCleanLine(x) && IsCleanLine(y)
    ensures StripNonBlank([x, y]) == [x, y]
  {
    CleanStrips(x);
    CleanStrips(y);
    var xs := [x, y];
    assert forall k | 0 <= k < |xs| :: xs[k] != "" && Strip(xs[k]) == xs[k];
    KeepNonEmptyFixed(xs, Strip);
  }

  /** Two clean category inputs with a blank prefix and suffix are the parts. */
  lemma TwoCleanParts(x: string, y: string)
    requires IsCleanLine(x) && IsCleanLine(y)
    ensures ConcatParts("", [x, y], "") == [x, y]
  {
    TwoCleanKept(x, y);
    ConcatPartsOrder("", [x, y], "");
  }

  /** The intended arrangement: the first part stays in front when it is the
      prefix, the last stays at the end when it is the suffix, and the parts
      between are sorted; nothing is dropped or replaced. */
  function PinnedSort(parts: seq<string>, headPinned: bool, tailPinned: bool): (r: seq<string>)
    ensures |r| == |parts|
  {
    var h := if headPinned && |parts| >= 1 then 1 else 0;
    var t := if tailPinned && |parts| - h >= 1 then 1 else 0;
    parts[..h] + Sort(parts[h..|parts| - t]) + parts[|parts| - t..]
  }

  function ArrangedFixed(prefix: string, values: seq<string>, suffix: string, removeDuplicates: bool, sort: bool): seq<string> {
    var parts := ConcatParts(prefix, values, suffix);
    var deduped := if removeDuplicates then Dedup(parts) else parts;
    if sort then PinnedSort(deduped, !IsBlank(prefix), !IsBlank(suffix)) else deduped
  }

  /** Prompt Concat with the pinned ends taken from the kept parts. */
  function ConcatFixed(prefix: string, values: seq<string>, suffix: string, separator: string,
                       removeDuplicates: bool, sort: bool): Result<string> {
    if ConcatParts(prefix, values, suffix) == [] then Ok("")
    else
      match Separator(separator)
      case Raise(e) => Raise(e)
      case Ok(sep) => Ok(Join(ArrangedFixed(prefix, values, suffix, removeDuplicates, sort), sep))
  }

  /** The pinned sort only permutes. */
  lemma PinnedSortPermutes(parts: seq<string>, headPinned: bool, tailPinned: bool)
    ensures multiset(PinnedSort(parts, headPinned, tailPinned)) == multiset(parts)
  {
    var h := if headPinned && |parts| >= 1 then 1 else 0;
    var t := if tailPinned && |parts| - h >= 1 then 1 else 0;
    var head, mid, tail := parts[..h], parts[h..|parts| - t], parts[|parts| - t..];
    SortSpec(mid);
    Pieces(parts, h, t);
    MiddleReplaced(head, mid, Sort(mid), tail);
  }

  lemma Pieces<T>(parts: seq<T>, h: nat, t: nat)
    requires h + t <= |parts|
    ensures parts == parts[..h] + parts[h..|parts| - t] + parts[|parts| - t..]
  {
  }

  lemma MiddleReplaced<T>(head: seq<T>, mid: seq<T>, mid2: seq<T>, tail: seq<T>)
    requires multiset(mid2) == multiset(mid)
    ensures multiset(head + mid2 + tail) == multiset(head + mid + tail)
  {
  }

  /** The pinned sort keeps the pinned ends and orders what lies between. */
  lemma PinnedSortEnds(parts: seq<string>, headPinned: bool, tailPinned: bool)
    ensures headPinned && parts != [] ==> PinnedSort(parts, headPinned, tailPinned)[0] == parts[0]
    ensures tailPinned && |parts| >= (if headPinned then 2 else 1) ==>
      PinnedSort(parts, headPinned, tailPinned)[|parts| - 1] == parts[|parts| - 1]
    ensures headPinned && tailPinned && |parts| >= 2 ==>
      SortedStr(PinnedSort(parts, headPinned, tailPinned)[1..|parts| - 1])
  {
    var h := if headPinned && |parts| >= 1 then 1 else 0;
    var t := if tailPinned && |parts| - h >= 1 then 1 else 0;
    var mid := parts[h..|parts| - t];
    Pinned(parts, h, t, Sort(mid));
    if headPinned && tailPinned && |parts| >= 2 {
      SortSpec(mid);
    }
  }

  /** Replacing the middle of `parts` keeps the `h` first and `t` last
      elements. */
  lemma Pinned<T>(parts: seq<T>, h: nat, t: nat, mid: seq<T>)
    requires h <= 1 && t <= 1 && h + t <= |parts| && |mid| == |parts| - h - t
    ensures var r := parts[..h] + mid + parts[|parts| - t..];
      && |r| == |parts|
      && (h == 1 ==> r[0] == parts[0])
      && (t == 1 ==> r[|parts| - 1] == parts[|parts| - 1])
      && r[h..|parts| - t] == mid
  {
    var r := parts[..h] + mid + parts[|parts| - t..];
    if t == 1 {
      assert r == (parts[..h] + mid) + [parts[|parts| - 1]];
    }
  }

  /** Sorting in the intended way keeps every stripped non-blank input, the
      kept prefix first and the kept suffix last. */
  lemma ConcatFixedKeepsParts(prefix: string, values: seq<string>, suffix: string)
    ensures var parts := ConcatParts(prefix, values, suffix);
      var arranged := ArrangedFixed(prefix, values, suffix, false, true);
      && multiset(arranged) == multiset(parts)
      && (!IsBlank(prefix) ==> |arranged| > 0 && arranged[0] == Strip(prefix))
      && (!IsBlank(suffix) ==> |arranged| > 0 && arranged[|arranged| - 1] == Strip(suffix))
  {
    var parts := ConcatParts(prefix, values, suffix);
    ConcatPartsOrder(prefix, values, suffix);
    PinnedSortPermutes(parts, !IsBlank(prefix), !IsBlank(suffix));
    PinnedSortEnds(parts, !IsBlank(prefix), !IsBlank(suffix));
  }

  /** Where the written sort is right (clean prefix and suffix, no
      de-duplication) the intended one gives the same prompt. */
  lemma ConcatFixedAgrees(prefix: string, values: seq<string>, suffix: string, separator: string)
    requires IsCleanLine(prefix) && IsCleanLine(suffix)
    ensures ConcatFixed(prefix, values, suffix, separator, false, true) == Concat(prefix, values, suffix, separator, false, true)
  {
    ArrangedFixedAgrees(prefix, values, suffix);
  }

  lemma ArrangedFixedAgrees(prefix: string, values: seq<string>, suffix: string)
    requires IsCleanLine(prefix) && IsCleanLine(suffix)
    ensures ArrangedFixed(prefix, values, suffix, false, true) == Arranged(prefix, values, suffix, false, true)
  {
    CleanNotBlank(prefix);
    CleanNotBlank(suffix);
    ConcatPartsOrder(prefix, values, suffix);
    var parts := ConcatParts(prefix, values, suffix);
    var mid := StripNonBlank(values);
    assert parts == [prefix] + mid + [suffix];
    assert parts[1..|parts| - 1] == mid;
    assert parts[..1] == [prefix] && parts[|parts| - 1..] == [suffix];
    assert PinnedSort(parts, true, true) == [prefix] + Sort(mid) + [suffix];
    assert Middle(parts, suffix) == mid;
  }

  // ---------------------------------------------------------- Prompt Builder

  /** A string input, or a list of strings from an upstream list output. */
  datatype Content = Text(text: string) | Lines(items: seq<string>)

  /** `"\n".join(content)` for a list, the text itself otherwise. */
  function ContentText(content: Content): string {
    match content
    case Text(s) => s
    case Lines(items) => Join(items, "\n")
  }

  /** The lines that are not blank, in order. */
  function NonBlank(lines: seq<string>): (r: seq<string>)
    ensures forall x | x in r :: x in lines && !IsBlank(x)
  {
    if lines == [] then []
    else (if IsBlank(lines[0]) then [] else [lines[0]]) + NonBlank(lines[1..])
  }

  /** `[f"{prefix}{glue}{line}{glue}{suffix}".strip(trim) for line in lines
      if line.strip()]`. */
  function BuildRecords(lines: seq<string>, prefix: string, suffix: string, glue: string, trim: string): seq<string> {
    MapNonBlank(lines, line => StripChars(prefix + glue + line + glue + suffix, trim))
  }

  /** `[f(line) for line in lines if line.strip()]`; `line.strip()` is empty
      exactly for a blank line (`StripEmptyIffBlank`). */
  function MapNonBlank(lines: seq<string>, f: string -> string): seq<string> {
    if lines == [] then []
    else
      var rest := MapNonBlank(lines[1..], f);
      if !IsBlank(lines[0]) then [f(lines[0])] + rest else rest
  }

  /** One result per non-blank line, in order. */
  lemma {:induction false} MapNonBlankSpec(lines: seq<string>, f: string -> string)
    ensures var r := MapNonBlank(lines, f);
      var kept := NonBlank(lines);
      |r| == |kept| && forall j | 0 <= j < |kept| :: r[j] == f(kept[j])
    decreases |lines|
  {
    if lines != [] {
      var r, rest := MapNonBlank(lines, f), MapNonBlank(lines[1..], f);
      var kept, keptRest := NonBlank(lines), NonBlank(lines[1..]);
      MapNonBlankSpec(lines[1..], f);
      if !IsBlank(lines[0]) {
        assert kept == [lines[0]] + keptRest;
        assert r == [f(lines[0])] + rest;
        forall j | 1 <= j < |kept| ensures r[j] == f(kept[j]) {
          assert r[j] == rest[j - 1] && kept[j] == keptRest[j - 1];
        }
      } else {
        assert kept == keptRest && r == rest;
      }
    }
  }

  /** One record per non-blank line, in order, each the template with the
      `trim` characters removed from both ends. */
  lemma BuildRecordsSpec(lines: seq<string>, prefix: string, suffix: string, glue: string, trim: string)
    ensures var records := BuildRecords(lines, prefix, suffix, glue, trim);
      var kept := NonBlank(lines);
      && |records| == |kept|
      && forall j | 0 <= j < |kept| :: records[j] == StripChars(prefix + glue + kept[j] + glue + suffix, trim)
  {
    MapNonBlankSpec(lines, line => StripChars(prefix + glue + line + glue + suffix, trim));
  }

  /** `PromptBuilder.process_prompt`: the records (or `[""]`) and the content
      as one text. */
  function Build(prefix: string, content: Content, suffix: string): (seq<string>, string) {
    var text := ContentText(content);
    var lines := if text != "" then Split(text, "\n") else [];
    var records := BuildRecords(lines, prefix, suffix, ", ", ", ");
    (if records == [] then [""] else records, text)
  }

  /** The prompt list has one record per non-blank line of the content, or is
      `[""]` when there is none; `content_only` is the content as text. */
  lemma BuildOutputs(prefix: string, content: Content, suffix: string)
    ensures var (records, text) := Build(prefix, content, suffix);
      var kept := NonBlank(if text != "" then Split(text, "\n") else []);
      && text == ContentText(content)
      && (kept == [] ==> records == [""])
      && (kept != [] ==>
            && |records| == |kept|
            && forall j | 0 <= j < |kept| :: records[j] == StripChars(prefix + ", " + kept[j] + ", " + suffix, ", "))
  {
    var text := ContentText(content);
    BuildRecordsSpec(if text != "" then Split(text, "\n") else [], prefix, suffix, ", ", ", ");
  }

  /** No record starts or ends with a character of `trim`. */
  lemma RecordsTrimmed(lines: seq<string>, prefix: string, suffix: string, glue: string, trim: string)
    ensures forall r | r in BuildRecords(lines, prefix, suffix, glue, trim) ::
      r == "" || (r[0] !in trim && r[|r| - 1] !in trim)
  {
    BuildRecordsSpec(lines, prefix, suffix, glue, trim);
  }

  /** When prefix, line and suffix are non-empty and none starts or ends with
      a `trim` character, the record is the template verbatim. */
  lemma RecordIntact(prefix: string, line: string, suffix: string, glue: string, trim: string)
    requires prefix != "" && suffix != ""
    requires prefix[0] !in trim && suffix[|suffix| - 1] !in trim
    ensures StripChars(prefix + glue + line + glue + suffix, trim) == prefix + glue + line + glue + suffix
  {
    var s := prefix + glue + line + glue + suffix;
    assert s[0] == prefix[0] && s[|s| - 1] == suffix[|suffix| - 1];
    TrimKeeps(s, c => c in trim);
  }

  // ---------------------------------------------------------- Keyword Picker

  const RandomMode: string := "🎲Random"

  /** `[kw.strip() for kw in text.split(', ') if kw.strip()]`. */
  function KeywordList(text: string): (r: seq<string>)
    ensures forall x | x in r :: IsCleanLine(x)
  {
    StripNonBlankKept(Split(text, ", "));
    StripNonBlank(Split(text, ", "))
  }

  /** The keywords picked from `list`: `random.sample(list, count)` right
      after `random.seed`, or `list[:count]`. */
  function Picked(list: seq<string>, count: nat, random: bool, rng: nat -> nat): seq<string>
    requires count <= |list|
  {
    if random then Sample(list, count, rng, 0) else list[..count]
  }

  /** Ordered mode takes the first keywords; random mode takes as many
      keywords at distinct positions of the list. */
  lemma PickedSpec(list: seq<string>, count: nat, random: bool, rng: nat -> nat)
    requires count <= |list|
    ensures |Picked(list, count, random, rng)| == count
    ensures !random ==> Picked(list, count, random, rng) == list[..count]
    ensures random ==> var ps := SamplePositions(|list|, count, rng, 0);
      Distinct(ps) && forall i | 0 <= i < count :: ps[i] < |list| && Picked(list, count, random, rng)[i] == list[ps[i]]
  {
    SampleAtDistinctPositions(list, count, rng, 0);
  }

  function Min(a: int, b: int): int {
    if a <= b then a else b
  }

  /** `KeywordPicker.pick_keywords` once the list is known. */
  function PickFrom(list: seq<string>, pickCount: int, pickMode: string, rng: nat -> nat): string {
    if list == [] || pickCount <= 0 then ""
    else Join(Picked(list, Min(pickCount, |list|), pickMode == RandomMode, rng), ", ")
  }

  /** `KeywordPicker.pick_keywords`, as written: the two inputs are glued
      with "," and the result is split on ", ". */
  function PickKeywords(input: string, keywords: string, pickCount: int, pickMode: string, rng: nat -> nat): string {
    var combined := input + "," + keywords;
    if IsBlank(combined) then "" else PickFrom(KeywordList(combined), pickCount, pickMode, rng)
  }

  /** A count of zero or less picks nothing; otherwise `min(pick_count, n)`
      keywords are picked and joined with ", ". */
  lemma PickCount(list: seq<string>, pickCount: int, pickMode: string, rng: nat -> nat)
    ensures pickCount <= 0 ==> PickFrom(list, pickCount, pickMode, rng) == ""
    ensures list != [] && pickCount > 0 ==>
      var m := Min(pickCount, |list|);
      0 < m <= |list| && |Picked(list, m, pickMode == RandomMode, rng)| == m
  {
    if list != [] && pickCount > 0 {
      PickedSpec(list, Min(pickCount, |list|), pickMode == RandomMode, rng);
    }
  }

  /** With the default empty `input_keywords`, the first keyword keeps the
      "," glue: ordered picking of one keyword from "a, b" gives ",a". */
  lemma PickKeepsGlue(keywords: string, pickMode: string, rng: nat -> nat)
    requires keywords == "a, b" && pickMode == "🔢ordered"
    ensures PickKeywords("", keywords, 1, pickMode, rng) == ",a"
  {
    var glued := "," + keywords;
    assert glued == ",a, b" by {
      assert |glued| == 5;
      forall i | 0 <= i < 5 ensures glued[i] == ",a, b"[i] {
        if i > 0 { assert glued[i] == keywords[i - 1]; }
      }
    }
    GluedKeywords();
    EmptyInputGlued(keywords, 1, pickMode, rng);
    OrderedFirst(rng);
  }

  /** With an empty `input_keywords` the picker works on "," + keywords. */
  lemma EmptyInputGlued(keywords: string, pickCount: int, pickMode: string, rng: nat -> nat)
    ensures PickKeywords("", keywords, pickCount, pickMode, rng) == PickFrom(KeywordList("," + keywords), pickCount, pickMode, rng)
  {
    var combined := "" + "," + keywords;
    assert combined == "," + keywords;
    assert !IsBlank(combined) by { assert !IsSpace(combined[0]); }
  }

  lemma OrderedFirst(rng: nat -> nat)
    ensures PickFrom([",a", "b"], 1, "🔢ordered", rng) == ",a"
  {
    var list := [",a", "b"];
    assert "🔢ordered"[0] != RandomMode[0];
    assert Picked(list, 1, false, rng) == [",a"];
  }

  /** ",a, b" splits on ", " into ",a" and "b". */
  lemma GluedSplit()
    ensures Split(",a, b", ", ") == [",a", "b"]
  {
    assert ",a, b" == ",a" + ", " + "b";
    SplitAround(",a", ", ", "b");
    assert FindFrom(",a", ", ", 1) == None;
    assert FindFrom(",a", ", ", 0) == None;
    assert FindFrom("b", ", ", 0) == None;
  }

  lemma GluedKeywords()
    ensures KeywordList(",a, b") == [",a", "b"]
  {
    GluedSplit();
    TwoCleanKept(",a", "b");
  }

  /** The intended picker: the two inputs glued with ", ", the separator the
      list is split on. */
  function PickKeywordsFixed(input: string, keywords: string, pickCount: int, pickMode: string, rng: nat -> nat): string {
    var combined := input + ", " + keywords;
    if IsBlank(combined) then "" else PickFrom(KeywordList(combined), pickCount, pickMode, rng)
  }

  /** Glued with ", ", the keyword list is the keywords of the input followed
      by those of the text field: nothing carries the glue. */
  lemma FixedKeywordsConcatenate(input: string, keywords: string)
    ensures KeywordList(input + ", " + keywords) == KeywordList(input) + KeywordList(keywords)
  {
    SplitAround(input, ", ", keywords);
    StripNonBlankAppend(Split(input, ", "), Split(keywords, ", "));
  }

  /** With an empty `input_keywords` the intended picker picks from the text
      field's keywords alone: "a, b" ordered, one keyword, gives "a". */
  lemma FixedEmptyInput(keywords: string, pickCount: int, pickMode: string, rng: nat -> nat)
    ensures PickKeywordsFixed("", keywords, pickCount, pickMode, rng) == PickFrom(KeywordList(keywords), pickCount, pickMode, rng)
  {
    var combined := "" + ", " + keywords;
    assert !IsBlank(combined) by { assert !IsSpace(combined[0]); }
    FixedKeywordsConcatenate("", keywords);
    assert Split("", ", ") == [""];
    StripNonBlankOne("");
    assert KeywordList("") == [];
    assert KeywordList(combined) == KeywordList(keywords);
  }
}
