/** The text side of the AI prompt generators (WildPromptorAI.py): the
    `clean_prompt` rewrite chain applied to every model reply, and the
    `format_prompt` template sent to the model. Each regular expression is
    re-expressed as an explicit string function. */
module PromptAI {
  import opened Wrappers
  import opened Text

  // ------------------------------------------------------------ label lines

  predicate IsNewline(c: char) {
    c == '\n'
  }

  /** `re.sub(r'^.*?:\n', '', text, flags=re.MULTILINE)`. `.` never crosses a
      newline, so a match is a whole line whose last character is ':',
      together with the newline after it. The final line, which has no
      newline after it, always stays. */
  function DropLabelLines(s: string): (r: string)
    ensures |r| <= |s|
    decreases |s|
  {
    var j := IndexWhere(s, 0, IsNewline);
    if j == |s| then s
    else (if j > 0 && s[j - 1] == ':' then "" else s[..j + 1]) + DropLabelLines(s[j + 1..])
  }

  /** No ':' directly before a newline: no line is a label line. */
  predicate NoLabelEnd(s: string) {
    forall i | 0 < i < |s| :: !(s[i - 1] == ':' && IsNewline(s[i]))
  }

  /** The line after the last newline, which `DropLabelLines` never removes. */
  function FinalLine(s: string): string
    decreases |s|
  {
    var j := IndexWhere(s, 0, IsNewline);
    if j == |s| then s else FinalLine(s[j + 1..])
  }

  lemma NoLabelEndConcat(a: string, b: string)
    requires NoLabelEnd(a) && NoLabelEnd(b)
    requires a == "" || a[|a| - 1] != ':'
    ensures NoLabelEnd(a + b)
  {
    var s := a + b;
    forall i | 0 < i < |s| ensures !(s[i - 1] == ':' && IsNewline(s[i])) {
      if i > |a| {
        assert s[i - 1] == b[i - 1 - |a|] && s[i] == b[i - |a|];
      } else if i < |a| {
        assert s[i - 1] == a[i - 1] && s[i] == a[i];
      }
    }
  }

  /** What precedes the first newline, with that newline, is free of label
      ends when the line does not end with ':'. */
  lemma KeptLineClean(s: string, j: nat)
    requires j < |s| && IsNewline(s[j]) && (j == 0 || s[j - 1] != ':')
    requires forall q | 0 <= q < j :: !IsNewline(s[q])
    ensures NoLabelEnd(s[..j + 1]) && s[..j + 1][j] != ':'
  {
  }

  /** After the rewrite no line ends with ':' any more. */
  lemma {:induction false} DropLabelLinesClean(s: string)
    ensures NoLabelEnd(DropLabelLines(s))
    decreases |s|
  {
    var j := IndexWhere(s, 0, IsNewline);
    if j < |s| {
      var rest := s[j + 1..];
      DropLabelLinesClean(rest);
      if j > 0 && s[j - 1] == ':' {
        assert DropLabelLines(s) == "" + DropLabelLines(rest);
      } else {
        KeptLineClean(s, j);
        NoLabelEndConcat(s[..j + 1], DropLabelLines(rest));
      }
    }
  }

  /** Text without label lines is left as it is. */
  lemma {:induction false} DropLabelLinesKeeps(s: string)
    requires NoLabelEnd(s)
    ensures DropLabelLines(s) == s
    decreases |s|
  {
    var j := IndexWhere(s, 0, IsNewline);
    if j < |s| {
      var rest := s[j + 1..];
      assert NoLabelEnd(rest) by {
        forall i | 0 < i < |rest| ensures !(rest[i - 1] == ':' && IsNewline(rest[i])) {
          assert rest[i - 1] == s[j + i] && rest[i] == s[j + 1 + i];
        }
      }
      DropLabelLinesKeeps(rest);
      assert s[..j + 1] + rest == s;
    }
  }

  /** Removing label lines twice removes nothing more. */
  lemma DropLabelLinesIdempotent(s: string)
    ensures DropLabelLines(DropLabelLines(s)) == DropLabelLines(s)
  {
    DropLabelLinesClean(s);
    DropLabelLinesKeeps(DropLabelLines(s));
  }

  /** The final line survives. */
  lemma {:induction false} FinalLineKept(s: string)
    ensures EndsWith(DropLabelLines(s), FinalLine(s))
    decreases |s|
  {
    var j := IndexWhere(s, 0, IsNewline);
    if j < |s| {
      var rest := s[j + 1..];
      FinalLineKept(rest);
      var head := if j > 0 && s[j - 1] == ':' then "" else s[..j + 1];
      var d := DropLabelLines(rest);
      var f := FinalLine(rest);
      assert (head + d)[|head + d| - |f|..] == d[|d| - |f|..];
    }
  }

  // ------------------------------------------------------- characters only

  /** Every character of `s` satisfies `p`. */
  predicate AllChars(s: string, p: char -> bool) {
    forall i | 0 <= i < |s| :: p(s[i])
  }

  /** `re.sub(r'\*+', '', text)`: every '*' removed. */
  function RemoveStars(s: string): (r: string)
    ensures |r| <= |s|
    decreases |s|
  {
    if s == "" then ""
    else (if s[0] == '*' then "" else [s[0]]) + RemoveStars(s[1..])
  }

  predicate NotStar(c: char) {
    c != '*'
  }

  /** No '*' is left, and text without '*' is left as it is. */
  lemma {:induction false} RemoveStarsSpec(s: string)
    ensures AllChars(RemoveStars(s), NotStar)
    ensures AllChars(s, NotStar) ==> RemoveStars(s) == s
    decreases |s|
  {
    if s != "" {
      RemoveStarsSpec(s[1..]);
      var head := if s[0] == '*' then "" else [s[0]];
      var r := RemoveStars(s[1..]);
      forall i | 0 <= i < |head + r| ensures NotStar((head + r)[i]) {
        if i >= |head| {
          assert (head + r)[i] == r[i - |head|];
        }
      }
      if AllChars(s, NotStar) {
        assert AllChars(s[1..], NotStar) by {
          forall i | 0 <= i < |s| - 1 ensures NotStar(s[1..][i]) {
            assert s[1..][i] == s[i + 1];
          }
        }
        assert [s[0]] + s[1..] == s;
      }
    }
  }

  /** `re.sub(r'\s+', ' ', text)`: every run of whitespace becomes one space. */
  function CollapseSpace(s: string): (r: string)
    ensures |r| <= |s|
    decreases |s|
  {
    if s == "" then ""
    else if IsSpace(s[0]) then " " + CollapseSpace(TrimStart(s[1..], IsSpace))
    else [s[0]] + CollapseSpace(s[1..])
  }

  /** The only whitespace is ' ', never two in a row. */
  predicate SingleSpaced(s: string) {
    && (forall i | 0 <= i < |s| :: IsSpace(s[i]) ==> s[i] == ' ')
    && (forall i | 0 < i < |s| :: !(s[i - 1] == ' ' && s[i] == ' '))
  }

  /** Collapsing keeps the first character of text that starts with a
      non-space. */
  lemma CollapseHead(s: string)
    requires s != "" && !IsSpace(s[0])
    ensures CollapseSpace(s) != "" && CollapseSpace(s)[0] == s[0]
  {
  }

  lemma SingleSpacedCons(c: char, t: string)
    requires SingleSpaced(t) && (IsSpace(c) ==> c == ' ')
    requires c == ' ' ==> t == "" || t[0] != ' '
    ensures SingleSpaced([c] + t)
  {
    var s := [c] + t;
    forall i | 0 < i < |s| ensures !(s[i - 1] == ' ' && s[i] == ' ') {
      if i > 1 {
        assert s[i - 1] == t[i - 2] && s[i] == t[i - 1];
      }
    }
    forall i | 0 <= i < |s| ensures IsSpace(s[i]) ==> s[i] == ' ' {
      if i > 0 {
        assert s[i] == t[i - 1];
      }
    }
  }

  /** After collapsing, whitespace is single spaces only. */
  lemma {:induction false} CollapseSpaceSingle(s: string)
    ensures SingleSpaced(CollapseSpace(s))
    decreases |s|
  {
    if s != "" {
      if IsSpace(s[0]) {
        var t := TrimStart(s[1..], IsSpace);
        CollapseSpaceSingle(t);
        if t != "" {
          CollapseHead(t);
        }
        SingleSpacedCons(' ', CollapseSpace(t));
      } else {
        CollapseSpaceSingle(s[1..]);
        var t := s[1..];
        if t != "" && !IsSpace(t[0]) {
          CollapseHead(t);
        }
        SingleSpacedCons(s[0], CollapseSpace(t));
      }
    }
  }

  // ---------------------------------------------------------- word rejoin

  /** Non-empty and without whitespace. */
  predicate IsWord(w: string) {
    w != "" && forall i | 0 <= i < |w| :: !IsSpace(w[i])
  }

  /** No whitespace at either end. */
  predicate Trimmed(s: string) {
    s == "" || (!IsSpace(s[0]) && !IsSpace(s[|s| - 1]))
  }

  lemma WordJoinStep(w: string, rest: string)
    requires IsWord(w) && SingleSpaced(rest) && rest != "" && Trimmed(rest)
    ensures SingleSpaced(w + " " + rest) && Trimmed(w + " " + rest)
  {
    var s := w + " " + rest;
    assert s[0] == w[0] && s[|s| - 1] == rest[|rest| - 1];
    forall i | 0 <= i < |s| ensures IsSpace(s[i]) ==> s[i] == ' ' {
      if i < |w| {
        assert s[i] == w[i];
      } else if i > |w| {
        assert s[i] == rest[i - |w| - 1];
      }
    }
    forall i | 0 < i < |s| ensures !(s[i - 1] == ' ' && s[i] == ' ') {
      if i < |w| {
        assert s[i] == w[i];
      } else if i == |w| {
        assert s[i - 1] == w[|w| - 1];
      } else if i == |w| + 1 {
        assert s[i] == rest[0];
      } else {
        assert s[i - 1] == rest[i - |w| - 2] && s[i] == rest[i - |w| - 1];
      }
    }
  }

  /** Words joined with single spaces: single-spaced, nothing at the ends. */
  lemma {:induction false} JoinWordsTidy(ws: seq<string>)
    requires forall k | 0 <= k < |ws| :: IsWord(ws[k])
    ensures SingleSpaced(Join(ws, " ")) && Trimmed(Join(ws, " "))
    ensures ws != [] ==> Join(ws, " ") != ""
    decreases |ws|
  {
    if |ws| == 1 {
      var w := ws[0];
      forall i | 0 < i < |w| ensures !(w[i - 1] == ' ' && w[i] == ' ') {
        assert !IsSpace(w[i]);
      }
    } else if |ws| > 1 {
      var rest := ws[1..];
      assert forall k | 0 <= k < |rest| :: rest[k] == ws[k + 1];
      JoinWordsTidy(rest);
      WordJoinStep(ws[0], Join(rest, " "));
    }
  }

  /** `' '.join(text.split())`. */
  function Rejoin(s: string): string {
    Join(Words(s), " ")
  }

  /** Rejoined text is single-spaced and has no whitespace at either end. */
  lemma RejoinTidy(s: string)
    ensures SingleSpaced(Rejoin(s)) && Trimmed(Rejoin(s))
  {
    WordsHaveNoSpace(s);
    var ws := Words(s);
    forall k | 0 <= k < |ws| ensures IsWord(ws[k]) {
      assert ws[k] in ws;
    }
    JoinWordsTidy(ws);
  }

  // ------------------------------------------------------- phrase removal

  /** Python's `\w` restricted to ASCII: letters, digits and '_'. */
  predicate IsWordChar(c: char) {
    ('a' <= c <= 'z') || ('A' <= c <= 'Z') || ('0' <= c <= '9') || c == '_'
  }

  /** Whether position `i` of `s` is a word character; outside `s` it is not. */
  predicate WordAt(s: string, i: int) {
    0 <= i < |s| && IsWordChar(s[i])
  }

  /** Python's `\b` at position `i`: a word character on exactly one side. */
  predicate Boundary(s: string, i: nat) {
    WordAt(s, i - 1) != WordAt(s, i)
  }

  /** `re.IGNORECASE` on ASCII text: equal after lower-casing. */
  predicate SameIgnoringCase(a: char, b: char) {
    Lower(a) == Lower(b)
  }

  /** `\b{phrase}\b` matches at `i`. */
  predicate MatchAt(s: string, p: string, i: nat) {
    && p != ""
    && i + |p| <= |s|
    && Boundary(s, i)
    && Boundary(s, i + |p|)
    && forall k | 0 <= k < |p| :: SameIgnoringCase(s[i + k], p[k])
  }

  /** The scan of `re.sub(rf'\b{phrase}\b', '', text, flags=re.IGNORECASE)`
      from position `i`: each match is skipped, every other character kept.
      Matches are tested against the original text and do not overlap. */
  function RemoveFrom(s: string, p: string, i: nat): (r: string)
    ensures |r| <= |s| - i || (i > |s| && r == "")
    decreases |s| - i
  {
    if i >= |s| then ""
    else if MatchAt(s, p, i) then RemoveFrom(s, p, i + |p|)
    else [s[i]] + RemoveFrom(s, p, i + 1)
  }

  function RemovePhrase(s: string, p: string): string {
    RemoveFrom(s, p, 0)
  }

  /** Removal only drops characters: a property of every character carries
      over. */
  lemma {:induction false} RemoveFromChars(s: string, p: string, i: nat, q: char -> bool)
    requires AllChars(s, q)
    ensures AllChars(RemoveFrom(s, p, i), q)
    decreases |s| - i
  {
    if i < |s| {
      if MatchAt(s, p, i) {
        RemoveFromChars(s, p, i + |p|, q);
      } else {
        RemoveFromChars(s, p, i + 1, q);
        var r := RemoveFrom(s, p, i + 1);
        forall k | 0 <= k < |[s[i]] + r| ensures q(([s[i]] + r)[k]) {
          if k > 0 {
            assert ([s[i]] + r)[k] == r[k - 1];
          }
        }
      }
    }
  }

  /** Without a match from `i` on, the scan keeps `s[i..]`. */
  lemma {:induction false} RemoveFromNoMatch(s: string, p: string, i: nat)
    requires i <= |s|
    requires forall j: nat | i <= j < |s| :: !MatchAt(s, p, j)
    ensures RemoveFrom(s, p, i) == s[i..]
    decreases |s| - i
  {
    if i < |s| {
      RemoveFromNoMatch(s, p, i + 1);
      assert [s[i]] + s[i + 1..] == s[i..];
    }
  }

  /** A phrase ending in a non-word character, like "Image Description:",
      only matches where a word character follows it. */
  lemma MatchNeedsWordAfter(s: string, p: string, i: nat)
    requires p != "" && !IsWordChar(p[|p| - 1]) && MatchAt(s, p, i)
    ensures i + |p| < |s| && IsWordChar(s[i + |p|])
  {
    var e := i + |p| - 1;
    assert SameIgnoringCase(s[e], p[|p| - 1]);
    assert !IsWordChar(s[e]);
  }

  /** The spaces around a removed phrase stay: nothing collapses them again. */
  lemma PhraseGapKept()
    ensures RemovePhrase("a style b", "style") == "a  b"
  {
    var s, p := "a style b", "style";
    assert !MatchAt(s, p, 0) && !MatchAt(s, p, 1);
    assert MatchAt(s, p, 2) by {
      forall k | 0 <= k < |p| ensures SameIgnoringCase(s[2 + k], p[k]) {
        assert s[2 + k] == p[k];
      }
    }
    assert !MatchAt(s, p, 7) && !MatchAt(s, p, 8);
    assert RemoveFrom(s, p, 7) == " b";
  }

  const UnwantedPhrases: seq<string> := [
    "style", "additional detail", "artistic style", "optional details", "generate an image of",
    "Image Description:", "The image displayed is", "The image shows", "In this image",
    "The scene depicts", "This image portrays", "Visualize a scene where"]

  /** The phrase loop: each phrase removed in turn, in list order. */
  function RemovePhrases(s: string, phrases: seq<string>): string
    decreases |phrases|
  {
    if phrases == [] then s else RemovePhrases(RemovePhrase(s, phrases[0]), phrases[1..])
  }

  lemma {:induction false} RemovePhrasesChars(s: string, phrases: seq<string>, q: char -> bool)
    requires AllChars(s, q)
    ensures AllChars(RemovePhrases(s, phrases), q)
    decreases |phrases|
  {
    if phrases != [] {
      RemoveFromChars(s, phrases[0], 0, q);
      RemovePhrasesChars(RemovePhrase(s, phrases[0]), phrases[1..], q);
    }
  }

  // ---------------------------------------------------------- clean_prompt

  /** `clean_prompt(text)`. */
  function CleanPrompt(text: string): string {
    var t1 := DropLabelLines(text);
    var t2 := RemoveStars(t1);
    var t3 := CollapseSpace(t2);
    var t4 := Rejoin(t3);
    var t5 := RemovePhrases(t4, UnwantedPhrases);
    Strip(t5)
  }

  /** What a cleaned reply may hold: no '*', and no whitespace but ' '. */
  predicate CleanChar(c: char) {
    c != '*' && (IsSpace(c) ==> c == ' ')
  }

  /** Stripping keeps a property of every character and leaves no
      whitespace at either end. */
  lemma StripKeepsChars(s: string, q: char -> bool)
    requires AllChars(s, q)
    ensures AllChars(Strip(s), q) && Trimmed(Strip(s))
  {
    TrimKeepsChars(s, IsSpace, q);
  }

  lemma TrimKeepsChars(s: string, drop: char -> bool, q: char -> bool)
    requires AllChars(s, q)
    ensures AllChars(Trim(s, drop), q)
  {
    var a := |s| - |TrimStart(s, drop)|;
    AllCharsSlice(s, a, a + |Trim(s, drop)|, q);
  }

  /** A slice keeps a property of every character. */
  lemma AllCharsSlice(s: string, a: nat, b: nat, q: char -> bool)
    requires a <= b <= |s| && AllChars(s, q)
    ensures AllChars(s[a..b], q)
  {
    forall i | 0 <= i < b - a ensures q(s[a..b][i]) {
      assert s[a..b][i] == s[a + i];
    }
  }

  /** The rejoined text keeps the absence of '*' and has only ' ' as
      whitespace. */
  lemma RejoinClean(s: string)
    requires AllChars(s, NotStar)
    ensures AllChars(Rejoin(s), CleanChar)
  {
    RejoinTidy(s);
    WordsFromText(s, NotStar);
    JoinKeepsChars(Words(s), " ", NotStar);
  }

  /** Every word of `s` is made of characters of `s`: a property of every
      character of `s` holds in every word. */
  lemma {:induction false} WordsFromText(s: string, q: char -> bool)
    requires AllChars(s, q)
    ensures forall k | 0 <= k < |Words(s)| :: AllChars(Words(s)[k], q)
    decreases |s|
  {
    var t := TrimStart(s, IsSpace);
    if t != "" {
      var n := IndexWhere(t, 0, IsSpace);
      AllCharsSlice(s, |s| - |t|, |s|, q);
      assert s[|s| - |t|..|s|] == t;
      AllCharsSlice(t, n, |t|, q);
      AllCharsSlice(t, 0, n, q);
      assert t[n..|t|] == t[n..] && t[0..n] == t[..n];
      WordsFromText(t[n..], q);
      WordsCons(s, t[..n], Words(t[n..]), q);
    }
  }

  /** The words of `s` are its first word followed by the rest. */
  lemma WordsCons(s: string, first: string, rest: seq<string>, q: char -> bool)
    requires Words(s) == [first] + rest
    requires AllChars(first, q) && forall k | 0 <= k < |rest| :: AllChars(rest[k], q)
    ensures forall k | 0 <= k < |Words(s)| :: AllChars(Words(s)[k], q)
  {
    var ws := Words(s);
    forall k | 0 <= k < |ws| ensures AllChars(ws[k], q) {
      if k > 0 {
        assert ws[k] == rest[k - 1];
      }
    }
  }

  /** Joining keeps a property that every part and the separator have. */
  lemma {:induction false} JoinKeepsChars(parts: seq<string>, sep: string, q: char -> bool)
    requires AllChars(sep, q) && forall k | 0 <= k < |parts| :: AllChars(parts[k], q)
    ensures AllChars(Join(parts, sep), q)
    decreases |parts|
  {
    if |parts| > 1 {
      var rest := parts[1..];
      assert forall k | 0 <= k < |rest| :: rest[k] == parts[k + 1];
      JoinKeepsChars(rest, sep, q);
      AllCharsConcat(parts[0] + sep, Join(rest, sep), q);
      AllCharsConcat(parts[0], sep, q);
    }
  }

  lemma AllCharsConcat(a: string, b: string, q: char -> bool)
    requires AllChars(a, q) && AllChars(b, q)
    ensures AllChars(a + b, q)
  {
    forall i | 0 <= i < |a + b| ensures q((a + b)[i]) {
      if i >= |a| {
        assert (a + b)[i] == b[i - |a|];
      }
    }
  }

  /** A cleaned reply holds no '*', no newline or tab or other whitespace
      but ' ', and no whitespace at either end. */
  lemma CleanPromptTidy(text: string)
    ensures AllChars(CleanPrompt(text), CleanChar) && Trimmed(CleanPrompt(text))
  {
    var t2 := RemoveStars(DropLabelLines(text));
    RemoveStarsSpec(DropLabelLines(text));
    var t3 := CollapseSpace(t2);
    CollapseKeepsChars(t2, NotStar);
    RejoinClean(t3);
    RemovePhrasesChars(Rejoin(t3), UnwantedPhrases, CleanChar);
    StripKeepsChars(RemovePhrases(Rejoin(t3), UnwantedPhrases), CleanChar);
  }

  /** Collapsing whitespace brings in nothing but ' ': a property of every
      character and of ' ' holds afterwards. */
  lemma {:induction false} CollapseKeepsChars(s: string, q: char -> bool)
    requires AllChars(s, q) && q(' ')
    ensures AllChars(CollapseSpace(s), q)
    decreases |s|
  {
    if s != "" {
      var t := if IsSpace(s[0]) then TrimStart(s[1..], IsSpace) else s[1..];
      SuffixKeepsChars(s, t, q);
      CollapseKeepsChars(t, q);
      if IsSpace(s[0]) {
        AllCharsConcat(" ", CollapseSpace(t), q);
      } else {
        AllCharsConcat([s[0]], CollapseSpace(t), q);
      }
    }
  }

  /** A suffix keeps a property of every character. */
  lemma SuffixKeepsChars(s: string, t: string, q: char -> bool)
    requires AllChars(s, q) && |t| <= |s| && t == s[|s| - |t|..]
    ensures AllChars(t, q)
  {
    AllCharsSlice(s, |s| - |t|, |s|, q);
    assert s[|s| - |t|..|s|] == t;
  }

  // ---------------------------------------------------------- format_prompt

  const Intro: string := "Based on these keywords: "
  const Instructions: string := "\nCreate a single, concise paragraph describing an image. Focus only on the visual elements without mentioning prompt creation or image generation. Avoid sections, bullet points, or style suggestions."

  /** `format_prompt(keywords)`. */
  function FormatPrompt(keywords: string): string {
    Intro + keywords + Instructions
  }

  /** The keywords of a formatted prompt, or `None` when the text is not one. */
  function KeywordsOf(prompt: string): Option<string> {
    if |prompt| >= |Intro| + |Instructions| && prompt[..|Intro|] == Intro
       && prompt[|prompt| - |Instructions|..] == Instructions
    then Some(prompt[|Intro|..|prompt| - |Instructions|])
    else None
  }

  /** The template keeps the keywords verbatim between the fixed parts. */
  lemma FormatPromptRoundTrip(keywords: string)
    ensures KeywordsOf(FormatPrompt(keywords)) == Some(keywords)
  {
    var p := FormatPrompt(keywords);
    assert p[..|Intro|] == Intro;
    assert p[|p| - |Instructions|..] == Instructions;
    assert p[|Intro|..|p| - |Instructions|] == keywords;
  }
}
