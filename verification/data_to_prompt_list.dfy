/** The Data To Prompt List node (py/WildPromptor_dataToPromptList.py): text
    and files are split into clean segments, and a batch of prompts is chosen
    from them by index, starting at `count_start_from`, wrapping around when
    duplicates are allowed, after reversing or shuffling the data. */
module DataToPromptList {
  import opened Wrappers
  import opened Text
  import opened PyRandom
  import opened Wordlist

  const NoData: string := "No data available"
  const Reverse: string := "\U{2b06}\U{fe0f}Reverse"
  const Random: string := "🎲Random"

  // ------------------------------------------------------------ splitting

  /** `line.rstrip(',').strip()`. */
  function CleanLine(line: string): string {
    Strip(RStripChars(line, ","))
  }

  /** The cleaned lines, keeping the non-empty ones. */
  function CleanLines(lines: seq<string>): seq<string> {
    KeepNonEmpty(lines, CleanLine)
  }

  /** `_split_and_clean`: lines when the separator is empty, otherwise the
      pieces between separator occurrences; stripped, blank ones dropped. */
  function SplitAndClean(text: string, separator: string): seq<string> {
    if separator == "" then CleanLines(SplitLines(text))
    else StripNonBlank(Split(text, separator))
  }

  /** Stripping a string without line breaks leaves none. */
  lemma StripKeepsNoBreak(s: string)
    requires SingleLine(s)
    ensures SingleLine(Strip(s))
  {
    var a := |s| - |TrimStart(s, IsSpace)|;
    assert Trim(s, IsSpace) == s[a..a + |Trim(s, IsSpace)|];
  }

  /** One line, cleaned: empty, or clean and without line breaks. */
  lemma CleanOne(line: string)
    requires SingleLine(line)
    ensures var s := CleanLine(line);
      s == "" || (IsCleanLine(s) && SingleLine(s))
  {
    var r := RStripChars(line, ",");
    assert r == line[..|r|];
    assert SingleLine(r) by {
      forall i | 0 <= i < |r| ensures !IsLineBreak(r[i]) {
        assert r[i] == line[i];
      }
    }
    StripKeepsNoBreak(r);
  }

  /** Every cleaned line is non-empty, has no outer whitespace and no line
      break. */
  lemma CleanLinesClean(lines: seq<string>)
    requires forall k | 0 <= k < |lines| :: SingleLine(lines[k])
    ensures forall x | x in CleanLines(lines) :: IsCleanLine(x) && SingleLine(x)
  {
    KeepNonEmptyFrom(lines, CleanLine);
    forall x | x in CleanLines(lines) ensures IsCleanLine(x) && SingleLine(x) {
      var k :| 0 <= k < |lines| && CleanLine(lines[k]) == x;
      CleanOne(lines[k]);
    }
  }

  /** The segments with an empty separator: clean, single-line, and one for
      every line that keeps something after trailing commas and surrounding
      whitespace are removed. */
  lemma LineSegments(text: string)
    ensures forall x | x in SplitAndClean(text, "") :: IsCleanLine(x) && SingleLine(x)
    ensures var lines := SplitLines(text);
      forall k | 0 <= k < |lines| && CleanLine(lines[k]) != "" :: CleanLine(lines[k]) in SplitAndClean(text, "")
  {
    SplitLinesNoBreak(text);
    CleanLinesClean(SplitLines(text));
    KeepNonEmptyAll(SplitLines(text), CleanLine);
  }

  /** With a separator, the segments are the stripped non-blank pieces of a
      split of the text whose pieces join back to it and hold no separator. */
  lemma SeparatorSegments(text: string, separator: string)
    requires separator != ""
    ensures var pieces := Split(text, separator);
      && Join(pieces, separator) == text
      && (forall k | 0 <= k < |pieces| :: !Contains(pieces[k], separator))
      && SplitAndClean(text, separator) == StripNonBlank(pieces)
      && (forall x | x in SplitAndClean(text, separator) :: IsCleanLine(x))
      && forall k | 0 <= k < |pieces| && Strip(pieces[k]) != "" :: Strip(pieces[k]) in SplitAndClean(text, separator)
  {
    SplitJoin(text, separator);
    SplitPiecesFree(text, separator);
    StripNonBlankKept(Split(text, separator));
    StripNonBlankKeepsAll(Split(text, separator));
  }

  // ------------------------------------------------------------ file paths

  predicate IsPathBreak(c: char) {
    c == ',' || c == '|' || c == '\n'
  }

  /** The pieces between the characters satisfying `p`. */
  function SplitWhere(s: string, p: char -> bool): (r: seq<string>)
    ensures |r| >= 1
    decreases |s|
  {
    var j := IndexWhere(s, 0, p);
    if j == |s| then [s] else [s[..j]] + SplitWhere(s[j + 1..], p)
  }

  /** `re.split(r'\s*[,|\n]\s*', path.strip())`, up to the empty pieces the
      loop skips: the regex swallows the whitespace around each delimiter, so
      its non-empty pieces are the stripped non-empty pieces between
      delimiters. */
  function PathPieces(path: string): seq<string> {
    StripEach(SplitWhere(Strip(path), IsPathBreak))
  }

  /** `[x.strip() for x in xs]`. */
  function StripEach(xs: seq<string>): seq<string> {
    if xs == [] then [] else [Strip(xs[0])] + StripEach(xs[1..])
  }

  /** Empty, or without whitespace at either end. */
  predicate CleanOrEmpty(s: string) {
    s == "" || IsCleanLine(s)
  }

  /** Every piece is empty or clean. */
  predicate CleanPieces(parts: seq<string>) {
    forall k | 0 <= k < |parts| :: CleanOrEmpty(parts[k])
  }

  lemma CleanPiecesTail(parts: seq<string>)
    requires parts != [] && CleanPieces(parts)
    ensures CleanOrEmpty(parts[0]) && CleanPieces(parts[1..])
  {
    assert forall k | 0 <= k < |parts| - 1 :: parts[1..][k] == parts[k + 1];
  }

  lemma {:induction false} StripEachClean(xs: seq<string>)
    ensures CleanPieces(StripEach(xs))
  {
    if xs != [] {
      StripEachClean(xs[1..]);
      var r := StripEach(xs);
      assert r == [Strip(xs[0])] + StripEach(xs[1..]);
      forall k | 0 <= k < |r| ensures CleanOrEmpty(r[k]) {
        if k > 0 {
          assert r[k] == StripEach(xs[1..])[k - 1];
        }
      }
    }
  }

  /** The buffer holds a complete path once it has two dots or a known
      extension. */
  predicate Emits(buffer: string) {
    Count(buffer, '.') > 1 || EndsWith(buffer, ".txt") || EndsWith(buffer, ".csv")
  }

  /** The paths the buffer loop emits from `parts`, starting from `buffer`;
      `emits` tells when the buffer holds a whole path. */
  function Group(parts: seq<string>, buffer: string, emits: string -> bool): seq<string> {
    if parts == [] then (if buffer != "" then [Strip(buffer)] else [])
    else if parts[0] == "" then Group(parts[1..], buffer, emits)
    else
      var b := buffer + parts[0];
      if emits(b) then [Strip(b)] + Group(parts[1..], "", emits) else Group(parts[1..], b, emits)
  }

  /** All the strings of `xs`, concatenated. */
  function Flatten(xs: seq<string>): string {
    if xs == [] then "" else xs[0] + Flatten(xs[1..])
  }

  lemma FlattenCons(x: string, t: seq<string>)
    ensures Flatten([x] + t) == x + Flatten(t)
  {
    assert ([x] + t)[1..] == t;
  }

  /** Appending a clean piece to an empty or clean buffer keeps it clean. */
  lemma CleanAppend(x: string, y: string)
    requires CleanOrEmpty(x)
    requires IsCleanLine(y)
    ensures IsCleanLine(x + y)
  {
    assert (x + y)[|x + y| - 1] == y[|y| - 1];
    if x != "" {
      assert (x + y)[0] == x[0];
    } else {
      assert x + y == y;
    }
  }

  /** One step of the buffer loop. */
  lemma GroupStep(parts: seq<string>, buffer: string, emits: string -> bool)
    requires parts != []
    ensures Group(parts, buffer, emits) ==
      if parts[0] == "" then Group(parts[1..], buffer, emits)
      else if emits(buffer + parts[0]) then [Strip(buffer + parts[0])] + Group(parts[1..], "", emits)
      else Group(parts[1..], buffer + parts[0], emits)
  {
  }

  /** `GroupStep` at piece `k`. */
  lemma GroupAt(parts: seq<string>, k: nat, buffer: string, emits: string -> bool)
    requires k < |parts|
    ensures Group(parts[k..], buffer, emits) ==
      if parts[k] == "" then Group(parts[k + 1..], buffer, emits)
      else if emits(buffer + parts[k]) then [Strip(buffer + parts[k])] + Group(parts[k + 1..], "", emits)
      else Group(parts[k + 1..], buffer + parts[k], emits)
  {
    assert parts[k..][1..] == parts[k + 1..];
    GroupStep(parts[k..], buffer, emits);
  }

  /** Concatenated, the emitted paths give the buffer and the pieces
      concatenated: the loop only regroups them. */
  lemma {:induction false} GroupFlatten(parts: seq<string>, buffer: string, emits: string -> bool)
    requires CleanPieces(parts)
    requires CleanOrEmpty(buffer)
    ensures Flatten(Group(parts, buffer, emits)) == buffer + Flatten(parts)
  {
    if parts == [] {
      if buffer != "" {
        CleanStrips(buffer);
        assert Flatten([buffer]) == buffer + Flatten([]);
      }
    } else {
      GroupStep(parts, buffer, emits);
      var rest := parts[1..];
      CleanPiecesTail(parts);
      assert Flatten(parts) == parts[0] + Flatten(rest);
      if parts[0] == "" {
        GroupFlatten(rest, buffer, emits);
        assert "" + Flatten(rest) == Flatten(rest);
      } else {
        var b := buffer + parts[0];
        CleanAppend(buffer, parts[0]);
        Associate(buffer, parts[0], Flatten(rest));
        if emits(b) {
          CleanStrips(b);
          GroupFlatten(rest, "", emits);
          assert "" + Flatten(rest) == Flatten(rest);
          FlattenCons(b, Group(rest, "", emits));
        } else {
          GroupFlatten(rest, b, emits);
        }
      }
    }
  }

  /** Every emitted path is clean. */
  lemma {:induction false} GroupClean(parts: seq<string>, buffer: string, emits: string -> bool)
    requires CleanPieces(parts)
    requires CleanOrEmpty(buffer)
    ensures forall x | x in Group(parts, buffer, emits) :: IsCleanLine(x)
  {
    if parts == [] {
      if buffer != "" {
        CleanStrips(buffer);
      }
    } else {
      GroupStep(parts, buffer, emits);
      var rest := parts[1..];
      CleanPiecesTail(parts);
      if parts[0] == "" {
        GroupClean(rest, buffer, emits);
      } else {
        var b := buffer + parts[0];
        CleanAppend(buffer, parts[0]);
        if emits(b) {
          CleanStrips(b);
          GroupClean(rest, "", emits);
        } else {
          GroupClean(rest, b, emits);
        }
      }
    }
  }

  /** Every element of `s` but the last satisfies `p`. */
  predicate AllButLast<T>(s: seq<T>, p: T -> bool) {
    forall j | 0 <= j < |s| - 1 :: p(s[j])
  }

  /** Putting an element that satisfies `p` in front keeps `AllButLast`. */
  lemma AllButLastCons<T>(x: T, t: seq<T>, p: T -> bool)
    requires p(x) && AllButLast(t, p)
    ensures AllButLast([x] + t, p)
  {
    forall j | 0 <= j < |[x] + t| - 1 ensures p(([x] + t)[j]) {
      if j > 0 {
        assert ([x] + t)[j] == t[j - 1];
      }
    }
  }

  /** Every emitted path but the last ended the buffer by meeting the emit
      condition. */
  lemma {:induction false} GroupEmits(parts: seq<string>, buffer: string, emits: string -> bool)
    requires CleanPieces(parts)
    requires CleanOrEmpty(buffer)
    ensures AllButLast(Group(parts, buffer, emits), emits)
  {
    if parts != [] {
      GroupStep(parts, buffer, emits);
      var rest := parts[1..];
      CleanPiecesTail(parts);
      if parts[0] == "" {
        GroupEmits(rest, buffer, emits);
      } else {
        var b := buffer + parts[0];
        CleanAppend(buffer, parts[0]);
        if emits(b) {
          CleanStrips(b);
          GroupEmits(rest, "", emits);
          AllButLastCons(b, Group(rest, "", emits), emits);
        } else {
          GroupEmits(rest, b, emits);
        }
      }
    }
  }

  /** `_process_file_paths`: the buffer loop over the split pieces. */
  method ProcessFilePaths(path: string) returns (cleaned: seq<string>)
    ensures cleaned == Group(PathPieces(path), "", Emits)
  {
    var paths := PathPieces(path);
    ghost var target := Group(paths, "", Emits);
    cleaned := [];
    var buffer := "";
    var k := 0;
    assert paths[k..] == paths;
    while k < |paths|
      invariant 0 <= k <= |paths|
      invariant cleaned + Group(paths[k..], buffer, Emits) == target
    {
      ghost var rest := paths[k + 1..];
      GroupAt(paths, k, buffer, Emits);
      var part := paths[k];
      if part != "" {
        ghost var before := buffer;
        buffer := buffer + part;
        if Emits(buffer) {
          assert Group(paths[k..], before, Emits) == [Strip(buffer)] + Group(rest, "", Emits);
          Associate(cleaned, [Strip(buffer)], Group(rest, "", Emits));
          cleaned := cleaned + [Strip(buffer)];
          buffer := "";
        }
      }
      k := k + 1;
    }
    assert paths[k..] == [];
    if buffer != "" {
      cleaned := cleaned + [Strip(buffer)];
    }
  }

  /** The paths of a `path` input: clean, concatenating to its pieces, each
      but the last complete. */
  lemma FilePaths(path: string)
    ensures var cleaned := Group(PathPieces(path), "", Emits);
      && Flatten(cleaned) == Flatten(PathPieces(path))
      && (forall x | x in cleaned :: IsCleanLine(x))
      && forall j | 0 <= j < |cleaned| - 1 :: Emits(cleaned[j])
  {
    StripEachClean(SplitWhere(Strip(path), IsPathBreak));
    GroupFlatten(PathPieces(path), "", Emits);
    GroupClean(PathPieces(path), "", Emits);
    GroupEmits(PathPieces(path), "", Emits);
  }

  // ------------------------------------------------------------ reading

  /** `data.extend(more)` on the data read so far, unless `more` is an
      exception escaping. */
  function Extend(data: seq<string>, more: Result<seq<string>>): Result<seq<string>> {
    match more
    case Ok(segments) => Ok(data + segments)
    case Raise(e) => Raise(e)
  }

  /** One pass of the file loop. An empty path is skipped; a missing file and
      any other `OSError` are caught and add nothing; a decoding error is not
      among the caught exceptions and escapes. The text is read with
      universal newlines. */
  function FileOwn(files: map<string, File>, p: string, separator: string): Result<seq<string>> {
    if p == "" || p !in files then Ok([])
    else match files[p]
      case Readable(text) => Ok(SplitAndClean(TranslateNewlines(text), separator))
      case Unreadable => Ok([])
      case Undecodable => Raise("UnicodeDecodeError")
  }

  /** The segments of the files at `paths`, in order, or the first exception
      that escapes. */
  function FileData(files: map<string, File>, paths: seq<string>, separator: string): Result<seq<string>> {
    if paths == [] then Ok([])
    else match FileOwn(files, paths[0], separator)
      case Raise(e) => Raise(e)
      case Ok(own) => Extend(own, FileData(files, paths[1..], separator))
  }

  /** What `_read_data` returns: the text's segments, then each file's. */
  function Data(files: map<string, File>, path: string, separator: string, text: string): Result<seq<string>> {
    Extend(if text != "" then SplitAndClean(text, separator) else [],
           if path != "" then FileData(files, Group(PathPieces(path), "", Emits), separator) else Ok([]))
  }

  /** A path whose file exists but is not valid UTF-8. */
  predicate Undecodes(files: map<string, File>, p: string) {
    p != "" && p in files && files[p].Undecodable?
  }

  /** One pass of the file loop: an exception there is the loop's outcome;
      otherwise the file's own segments move from the part still to read to
      the part read. */
  lemma ReadStep(files: map<string, File>, paths: seq<string>, k: nat, separator: string,
                 data: seq<string>, outcome: Result<seq<string>>)
    requires k < |paths|
    requires Extend(data, FileData(files, paths[k..], separator)) == outcome
    ensures FileOwn(files, paths[k], separator).Raise? ==> outcome == Raise(FileOwn(files, paths[k], separator).error)
    ensures FileOwn(files, paths[k], separator).Ok? ==>
      Extend(data + FileOwn(files, paths[k], separator).value, FileData(files, paths[k + 1..], separator)) == outcome
  {
    assert paths[k..][0] == paths[k] && paths[k..][1..] == paths[k + 1..];
    var own := FileOwn(files, paths[k], separator);
    if own.Ok? {
      var rest := FileData(files, paths[k + 1..], separator);
      if rest.Ok? {
        Associate(data, own.value, rest.value);
      }
    }
  }

  /** `_read_data`: the text's segments, then each file's, or the exception
      that escapes the file loop. */
  method ReadData(files: map<string, File>, path: string, separator: string, text: string)
    returns (r: Result<seq<string>>)
    ensures r == Data(files, path, separator, text)
  {
    var data: seq<string> := [];
    if text != "" {
      data := data + SplitAndClean(text, separator);
      assert data == SplitAndClean(text, separator);
    }
    if path != "" {
      var paths := ProcessFilePaths(path);
      r := ReadFiles(files, paths, separator, data);
    } else {
      assert data + [] == data;
      r := Ok(data);
    }
  }

  /** The file loop of `_read_data`: `data` is extended with the segments of
      each file that can be read; a missing or unreadable file is skipped,
      and a decoding error ends the loop and escapes. */
  method ReadFiles(files: map<string, File>, paths: seq<string>, separator: string, data0: seq<string>)
    returns (r: Result<seq<string>>)
    ensures r == Extend(data0, FileData(files, paths, separator))
  {
    var data := data0;
    var k := 0;
    assert paths[k..] == paths;
    while k < |paths|
      invariant 0 <= k <= |paths|
      invariant Extend(data, FileData(files, paths[k..], separator)) == Extend(data0, FileData(files, paths, separator))
    {
      ReadStep(files, paths, k, separator, data, Extend(data0, FileData(files, paths, separator)));
      var p := paths[k];
      assert data + [] == data;
      if p != "" && p in files {
        match files[p]
        case Readable(text) =>
          data := data + SplitAndClean(TranslateNewlines(text), separator);
        case Unreadable =>
        case Undecodable =>
          return Raise("UnicodeDecodeError");
      }
      k := k + 1;
    }
    assert paths[k..] == [];
    assert data + [] == data;
    r := Ok(data);
  }

  /** The file loop raises exactly when some listed file is not valid UTF-8,
      and then with the decoding error. */
  lemma {:induction false} FileDataRaises(files: map<string, File>, paths: seq<string>, separator: string)
    ensures FileData(files, paths, separator).Raise? <==> exists k | 0 <= k < |paths| :: Undecodes(files, paths[k])
    ensures FileData(files, paths, separator).Raise? ==> FileData(files, paths, separator).error == "UnicodeDecodeError"
  {
    if paths != [] {
      FileDataRaises(files, paths[1..], separator);
      if exists k | 0 <= k < |paths[1..]| :: Undecodes(files, paths[1..][k]) {
        var k :| 0 <= k < |paths[1..]| && Undecodes(files, paths[1..][k]);
        assert Undecodes(files, paths[k + 1]);
      }
      if exists k | 0 <= k < |paths| :: Undecodes(files, paths[k]) {
        var k :| 0 <= k < |paths| && Undecodes(files, paths[k]);
        if k > 0 {
          assert Undecodes(files, paths[1..][k - 1]);
        }
      }
    }
  }

  /** A character absent from the text is absent from every piece of a
      split of it. */
  lemma {:induction false} SplitKeepsOut(s: string, sep: string, c: char)
    requires sep != "" && c !in s
    ensures forall x | x in Split(s, sep) :: c !in x
    decreases |s|
  {
    match FindFrom(s, sep, 0)
    case None =>
    case Some(j) =>
      var rest := s[j + |sep|..];
      assert c !in rest by {
        forall i | 0 <= i < |rest| ensures rest[i] != c {
          assert rest[i] == s[j + |sep| + i];
        }
      }
      assert c !in s[..j] by {
        forall i | 0 <= i < j ensures s[..j][i] != c {
          assert s[..j][i] == s[i];
        }
      }
      SplitKeepsOut(rest, sep, c);
  }

  /** Stripping brings in no character. */
  lemma StripKeepsOut(y: string, c: char)
    requires c !in y
    ensures c !in Strip(y)
  {
    var x := Strip(y);
    var a := |y| - |TrimStart(y, IsSpace)|;
    assert x == y[a..a + |x|];
  }

  /** A line-break character is in no segment split at line boundaries. */
  lemma LineSegmentsKeepOut(text: string, c: char)
    requires IsLineBreak(c)
    ensures forall x | x in SplitAndClean(text, "") :: c !in x
  {
    LineSegments(text);
    forall x | x in SplitAndClean(text, "") ensures c !in x {
      assert SingleLine(x);
    }
  }

  /** A character absent from the text is absent from every segment split
      at a separator. */
  lemma SeparatorSegmentsKeepOut(text: string, separator: string, c: char)
    requires separator != "" && c !in text
    ensures forall x | x in SplitAndClean(text, separator) :: c !in x
  {
    var pieces := Split(text, separator);
    SplitKeepsOut(text, separator, c);
    StripNonBlankKept(pieces);
    forall x | x in SplitAndClean(text, separator) ensures c !in x {
      var i :| 0 <= i < |pieces| && Strip(pieces[i]) == x;
      StripKeepsOut(pieces[i], c);
    }
  }

  /** A line-break character absent from the text is absent from every
      segment. */
  lemma SegmentsKeepOut(text: string, separator: string, c: char)
    requires c !in text && IsLineBreak(c)
    ensures forall x | x in SplitAndClean(text, separator) :: c !in x
  {
    if separator == "" {
      LineSegmentsKeepOut(text, c);
    } else {
      SeparatorSegmentsKeepOut(text, separator, c);
    }
  }

  /** Files are read with universal newlines: no segment read from a file
      holds a carriage return, whatever the file's line endings. */
  lemma {:induction false} FileDataNoCarriageReturn(files: map<string, File>, paths: seq<string>, separator: string)
    ensures FileData(files, paths, separator).Ok? ==> forall x | x in FileData(files, paths, separator).value :: '\r' !in x
  {
    if paths != [] {
      FileDataNoCarriageReturn(files, paths[1..], separator);
      var p := paths[0];
      if p != "" && p in files && files[p].Readable? {
        SegmentsKeepOut(TranslateNewlines(files[p].text), separator, '\r');
      }
    }
  }

  /** Every segment of the data is clean, whatever the separator. */
  lemma {:induction false} SegmentsClean(text: string, separator: string)
    ensures forall x | x in SplitAndClean(text, separator) :: IsCleanLine(x)
  {
    if separator == "" {
      LineSegments(text);
    } else {
      SeparatorSegments(text, separator);
    }
  }

  lemma {:induction false} FileDataClean(files: map<string, File>, paths: seq<string>, separator: string)
    ensures FileData(files, paths, separator).Ok? ==> forall x | x in FileData(files, paths, separator).value :: IsCleanLine(x)
  {
    if paths != [] {
      FileDataClean(files, paths[1..], separator);
      var p := paths[0];
      if p != "" && p in files && files[p].Readable? {
        SegmentsClean(TranslateNewlines(files[p].text), separator);
      }
    }
  }

  /** Every prompt the node can choose is non-empty with no outer whitespace. */
  lemma DataClean(files: map<string, File>, path: string, separator: string, text: string)
    ensures Data(files, path, separator, text).Ok? ==> forall x | x in Data(files, path, separator, text).value :: IsCleanLine(x)
  {
    SegmentsClean(text, separator);
    FileDataClean(files, Group(PathPieces(path), "", Emits), separator);
  }

  // ------------------------------------------------------------ selection

  /** `data[::-1]`. */
  function Reversed(s: seq<string>): (r: seq<string>)
    ensures |r| == |s| && forall i | 0 <= i < |s| :: r[i] == s[|s| - 1 - i]
  {
    if s == [] then [] else Reversed(s[1..]) + [s[0]]
  }

  /** The data in the order the mode puts it. */
  function Arranged(data: seq<string>, mode: string, rng: nat -> nat): seq<string> {
    if mode == Reverse then Reversed(data)
    else if mode == Random then Shuffled(data, rng)
    else data
  }

  /** Every mode only reorders: Reverse mirrors the indices, Random permutes,
      any other mode keeps the order. */
  lemma ArrangedPermutes(data: seq<string>, mode: string, rng: nat -> nat)
    ensures var d := Arranged(data, mode, rng);
      && |d| == |data| && multiset(d) == multiset(data)
      && (mode == Reverse ==> forall i | 0 <= i < |data| :: d[i] == data[|data| - 1 - i])
      && (mode != Reverse && mode != Random ==> d == data)
  {
    var d := Arranged(data, mode, rng);
    if mode == Reverse {
      ReversedPermutes(data);
    } else if mode == Random {
      ShuffledPermutes(data, rng);
    }
  }

  lemma {:induction false} ReversedPermutes(s: seq<string>)
    ensures multiset(Reversed(s)) == multiset(s)
  {
    if s != [] {
      ReversedPermutes(s[1..]);
      assert s == [s[0]] + s[1..];
    }
  }

  /** `list(range(lo, hi))`. */
  function Span(lo: nat, hi: nat): (r: seq<nat>)
    ensures |r| == (if lo < hi then hi - lo else 0)
    ensures forall j | 0 <= j < |r| :: r[j] == lo + j
    decreases hi - lo
  {
    if lo >= hi then [] else [lo] + Span(lo + 1, hi)
  }

  /** Python's `i % m` for a natural `i` and a positive `m`, by repeated
      subtraction. */
  function Wrap(i: nat, m: nat): (r: nat)
    requires m > 0
    ensures r < m
    ensures i < m ==> r == i
    decreases i
  {
    if i < m then i else Wrap(i - m, m)
  }

  /** What `generate_prompts` returns for the data it read: the placeholder
      when there is none; otherwise, with `d` the arranged data and `start`
      the 0-based start index, nothing once the start is past the end,
      `batch_size` prompts (every prompt for 0) cycling through `d[start..]`
      when duplicates are allowed, and the run `d[start..]` cut to the batch
      size when they are not; the combined output joins them with blank
      lines. */
  predicate Chosen(data: seq<string>, batchSize: nat, countStartFrom: nat, rng: nat -> nat,
                   allowDuplicates: bool, mode: string, prompts: seq<string>, combined: string)
    requires countStartFrom >= 1
  {
    var batch := if batchSize == 0 then |data| else batchSize;
    && (data == [] ==> prompts == [NoData] && combined == NoData)
    && (data != [] ==> combined == Join(prompts, "\n\n"))
    && (data != [] ==> PickedFrom(Arranged(data, mode, rng), countStartFrom - 1, batch, allowDuplicates, prompts))
  }

  /** Prompt `j` is `d[start + j % (|d| - start)]`: the prompts cycle
      through `d[start..]`. */
  predicate Cycles<T(==)>(d: seq<T>, start: nat, prompts: seq<T>)
    requires start < |d|
  {
    forall j | 0 <= j < |prompts| :: prompts[j] == d[start + Wrap(j, |d| - start)]
  }

  /** The next prompt of the cycle keeps it a cycle. */
  lemma CyclesStep<T>(d: seq<T>, start: nat, prompts: seq<T>)
    requires start < |d| && Cycles(d, start, prompts)
    ensures Cycles(d, start, prompts + [d[start + Wrap(|prompts|, |d| - start)]])
  {
  }

  /** A cycle no longer than `d[start..]` is a run of it. */
  lemma CyclesRun<T>(d: seq<T>, start: nat, prompts: seq<T>)
    requires start < |d| && Cycles(d, start, prompts) && |prompts| <= |d| - start
    ensures prompts == d[start..start + |prompts|]
  {
    forall j | 0 <= j < |prompts| ensures prompts[j] == d[start..start + |prompts|][j] {
    }
  }

  /** What the selection loop takes from `d` from index `start` on: nothing
      when `start` is past the end; with duplicates allowed, `batch` prompts
      cycling through `d[start..]`; without, the run `d[start..]` cut to
      `batch`. */
  predicate PickedFrom<T(==)>(d: seq<T>, start: nat, batch: nat, allowDuplicates: bool, prompts: seq<T>) {
    && (start >= |d| ==> prompts == [])
    && (start < |d| && allowDuplicates ==> |prompts| == batch && Cycles(d, start, prompts))
    && (start < |d| && !allowDuplicates ==>
          prompts == d[start..start + (if batch < |d| - start then batch else |d| - start)])
  }

  /** `generate_prompts`: read the data, then choose the prompts; an
      exception escaping `_read_data` escapes the node. */
  method GeneratePrompts(files: map<string, File>, path: string, batchSize: nat, countStartFrom: nat,
                         rng: nat -> nat, allowDuplicates: bool, mode: string, separator: string, text: string)
    returns (r: Result<(seq<string>, string)>)
    requires countStartFrom >= 1
    ensures var data := Data(files, path, separator, text);
      && (data.Raise? ==> r == Raise(data.error))
      && (data.Ok? ==> r.Ok? && Chosen(data.value, batchSize, countStartFrom, rng, allowDuplicates, mode, r.value.0, r.value.1))
  {
    var data := ReadData(files, path, separator, text);
    match data
    case Raise(e) =>
      r := Raise(e);
    case Ok(d) =>
      var prompts, combined := SelectPrompts(d, batchSize, countStartFrom, rng, allowDuplicates, mode);
      r := Ok((prompts, combined));
  }

  /** The part of `generate_prompts` after `_read_data`: arrange the data by
      mode, then pick `batch_size` prompts (all of them for 0) from index
      `count_start_from - 1` on. */
  method SelectPrompts(data: seq<string>, batchSize: nat, countStartFrom: nat, rng: nat -> nat,
                       allowDuplicates: bool, mode: string)
    returns (prompts: seq<string>, combined: string)
    requires countStartFrom >= 1
    ensures Chosen(data, batchSize, countStartFrom, rng, allowDuplicates, mode, prompts, combined)
  {
    if data == [] {
      return [NoData], NoData;
    }
    var batch := if batchSize == 0 then |data| else batchSize;
    var d := Arrange(data, mode, rng);
    prompts := PickFrom(d, countStartFrom - 1, batch, allowDuplicates);
    combined := Join(prompts, "\n\n");
  }

  /** The mode step of `generate_prompts`: `data[::-1]` for Reverse, an in-place
      `random.shuffle` for Random, the data unchanged otherwise. */
  method Arrange(data: seq<string>, mode: string, rng: nat -> nat) returns (d: seq<string>)
    ensures d == Arranged(data, mode, rng)
  {
    if mode == Reverse {
      d := Reversed(data);
    } else if mode == Random {
      var a := new string[|data|](j requires 0 <= j < |data| => data[j]);
      assert a[..] == data;
      Shuffle(a, rng);
      d := a[..];
    } else {
      d := data;
    }
  }

  /** When the selection loop stops, its prompts are the ones `PickedFrom`
      describes. */
  lemma PickedAtExit<T>(d: seq<T>, start: nat, batch: nat, allowDuplicates: bool, prompts: seq<T>)
    requires |prompts| <= batch
    requires start >= |d| ==> prompts == []
    requires start < |d| ==> Cycles(d, start, prompts)
    requires start < |d| && allowDuplicates ==> |prompts| == batch
    requires start < |d| && !allowDuplicates ==> |prompts| <= |d| - start
    requires start < |d| && !allowDuplicates ==> |prompts| == batch || |prompts| == |d| - start
    ensures PickedFrom(d, start, batch, allowDuplicates, prompts)
  {
    if start < |d| && !allowDuplicates {
      CyclesRun(d, start, prompts);
    }
  }

  /** The selection loop of `generate_prompts` over the arranged data `d`:
      with duplicates allowed it cycles through `d[start..]` for `batch`
      rounds; without, the retry loop always finds index `start + i` free, so
      it takes the run `d[start..]` cut to `batch`; nothing when `start` is
      past the end. */
  method PickFrom<T(==)>(d: seq<T>, start: nat, batch: nat, allowDuplicates: bool) returns (prompts: seq<T>)
    ensures PickedFrom(d, start, batch, allowDuplicates, prompts)
  {
    var n := |d|;
    prompts := [];
    var used: set<nat> := {};
    var available := Span(start, n);
    assert |available| == 0 <==> start >= n;
    var i := 0;
    while i < batch
      invariant 0 <= i <= batch && |prompts| == i
      invariant start >= n ==> i == 0
      invariant start < n ==> Cycles(d, start, prompts)
      invariant !allowDuplicates ==> |used| == i && (forall u | u in used :: start <= u < start + i)
      invariant !allowDuplicates && start < n ==> i <= n - start
    {
      if available == [] {
        break;
      }
      assert start < n;
      var index: nat;
      if allowDuplicates {
        index := available[Wrap(i, |available|)];
      } else {
        if |used| >= |available| {
          break;
        }
        index := available[Wrap(i, |available|)];
        // the `while True` retry loop exits on its first pass
        assert index == start + i;
        assert index !in used;
        used := used + {index};
      }
      assert index == start + Wrap(i, n - start);
      CyclesStep(d, start, prompts);
      prompts := prompts + [d[index]];
      i := i + 1;
    }
    PickedAtExit(d, start, batch, allowDuplicates, prompts);
  }
}
