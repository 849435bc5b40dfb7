/** The wordlist files under the data directory and how the nodes read them:
    folder listings, files read as text with universal newlines, stripped
    non-blank lines, the "title - content" line format, file-name lookup from
    a cleaned display name, and the per-node cache of file options. */
module Wordlist {
  import opened Wrappers
  import opened Text

  /** `os.path.join(data_path, folder, name)`. */
  datatype FilePath = FilePath(folder: string, name: string)

  /** What opening and reading a file in text mode yields: its text, an
      `OSError` other than "not found" (permissions, a directory), or a
      `UnicodeDecodeError` for bytes that are not valid UTF-8. */
  datatype File = Readable(text: string) | Unreadable | Undecodable

  /** The data directory: the names `os.listdir` returns for each folder, and
      the files. A folder or file absent from its map does not exist. */
  datatype Disk = Disk(listings: map<string, seq<string>>, files: map<FilePath, File>)

  /** `os.listdir(data_path/folder)`, which raises for a missing folder. */
  function ListDir(disk: Disk, folder: string): (r: Result<seq<string>>)
    ensures r.Ok? <==> folder in disk.listings
  {
    if folder in disk.listings then Ok(disk.listings[folder]) else Raise("FileNotFoundError")
  }

  // ------------------------------------------------------------ reading lines

  /** Text-mode reading: "\r\n" and a lone "\r" both read as "\n". */
  function TranslateNewlines(s: string): (r: string)
    ensures forall i | 0 <= i < |r| :: r[i] != '\r'
    decreases |s|
  {
    if s == "" then ""
    else if s[0] == '\r' then "\n" + TranslateNewlines(if |s| > 1 && s[1] == '\n' then s[2..] else s[1..])
    else [s[0]] + TranslateNewlines(s[1..])
  }

  /** The lines iterating over the file yields, without their "\n". A final
      empty piece (text ending in "\n", or empty text) is kept here; every
      reader below drops blank lines, so it never shows. */
  function RawLines(text: string): seq<string> {
    Split(TranslateNewlines(text), "\n")
  }

  /** `[y for x in xs if (y := f(x))]`: the non-empty images, in order. */
  function KeepNonEmpty(xs: seq<string>, f: string -> string): (r: seq<string>)
    ensures |r| <= |xs|
  {
    if xs == [] then []
    else (if f(xs[0]) == "" then [] else [f(xs[0])]) + KeepNonEmpty(xs[1..], f)
  }

  /** Strings that `f` maps to themselves and that are not empty are all kept. */
  lemma {:induction false} KeepNonEmptyFixed(xs: seq<string>, f: string -> string)
    requires forall k | 0 <= k < |xs| :: xs[k] != "" && f(xs[k]) == xs[k]
    ensures KeepNonEmpty(xs, f) == xs
    decreases |xs|
  {
    if xs != [] {
      var rest := xs[1..];
      assert forall k | 0 <= k < |rest| :: rest[k] == xs[k + 1];
      KeepNonEmptyFixed(rest, f);
      assert xs == [xs[0]] + rest;
    }
  }

  /** `[line.strip() for line in lines if line.strip()]`. */
  function StripNonBlank(lines: seq<string>): (r: seq<string>)
    ensures |r| <= |lines|
  {
    KeepNonEmpty(lines, Strip)
  }

  /** Filtering a concatenation filters each part. */
  lemma {:induction false} KeepNonEmptyAppend(x: seq<string>, y: seq<string>, f: string -> string)
    ensures KeepNonEmpty(x + y, f) == KeepNonEmpty(x, f) + KeepNonEmpty(y, f)
    decreases |x|
  {
    if x == [] {
      assert x + y == y;
    } else {
      assert (x + y)[0] == x[0] && (x + y)[1..] == x[1..] + y;
      KeepNonEmptyAppend(x[1..], y, f);
    }
  }

  /** Every kept string is the non-empty image of some input. */
  lemma {:induction false} KeepNonEmptyFrom(xs: seq<string>, f: string -> string)
    ensures forall z | z in KeepNonEmpty(xs, f) :: z != "" && exists i | 0 <= i < |xs| :: f(xs[i]) == z
  {
    if xs != [] {
      KeepNonEmptyFrom(xs[1..], f);
      var r := KeepNonEmpty(xs, f);
      var rest := KeepNonEmpty(xs[1..], f);
      forall z | z in r ensures z != "" && exists i | 0 <= i < |xs| :: f(xs[i]) == z {
        if z !in rest {
          assert f(xs[0]) == z;
        } else {
          var i :| 0 <= i < |xs[1..]| && f(xs[1..][i]) == z;
          assert f(xs[i + 1]) == z;
        }
      }
    }
  }

  /** Every non-empty image is kept. */
  lemma {:induction false} KeepNonEmptyAll(xs: seq<string>, f: string -> string)
    ensures forall i | 0 <= i < |xs| && f(xs[i]) != "" :: f(xs[i]) in KeepNonEmpty(xs, f)
  {
    if xs != [] {
      KeepNonEmptyAll(xs[1..], f);
      forall i | 1 <= i < |xs| && f(xs[i]) != "" ensures f(xs[i]) in KeepNonEmpty(xs, f) {
        assert xs[i] == xs[1..][i - 1];
      }
    }
  }

  /** Filtering a concatenation filters each part. */
  lemma StripNonBlankAppend(x: seq<string>, y: seq<string>)
    ensures StripNonBlank(x + y) == StripNonBlank(x) + StripNonBlank(y)
  {
    KeepNonEmptyAppend(x, y, Strip);
  }

  /** A kept line is non-empty and has no whitespace at either end. */
  predicate IsCleanLine(s: string) {
    s != "" && !IsSpace(s[0]) && !IsSpace(s[|s| - 1])
  }

  /** Stripping a clean line leaves it as it is. */
  lemma CleanStrips(s: string)
    requires IsCleanLine(s)
    ensures Strip(s) == s
  {
    TrimKeeps(s, IsSpace);
  }

  /** Every kept line is clean and is the stripped form of some input line. */
  lemma StripNonBlankKept(lines: seq<string>)
    ensures forall x | x in StripNonBlank(lines) :: IsCleanLine(x)
    ensures forall x | x in StripNonBlank(lines) :: exists i | 0 <= i < |lines| :: Strip(lines[i]) == x
  {
    KeepNonEmptyFrom(lines, Strip);
    forall x | x in StripNonBlank(lines) ensures IsCleanLine(x) {
      var i :| 0 <= i < |lines| && Strip(lines[i]) == x;
    }
  }

  /** Every input line that is not blank is kept, stripped. */
  lemma StripNonBlankKeepsAll(lines: seq<string>)
    ensures forall i | 0 <= i < |lines| && Strip(lines[i]) != "" :: Strip(lines[i]) in StripNonBlank(lines)
  {
    KeepNonEmptyAll(lines, Strip);
  }

  /** The stripped non-blank lines of a file's text. */
  function OptionLines(text: string): seq<string> {
    StripNonBlank(RawLines(text))
  }

  /** Opening and reading a file, with the exception that escapes. */
  function ReadLines(files: map<FilePath, File>, p: FilePath): (r: Result<seq<string>>)
    ensures r.Ok? <==> p in files && files[p].Readable?
    ensures r.Ok? ==> forall x | x in r.value :: IsCleanLine(x)
  {
    if p !in files then Raise("FileNotFoundError")
    else match files[p]
      case Unreadable => Raise("OSError")
      case Undecodable => Raise("UnicodeDecodeError")
      case Readable(text) =>
        StripNonBlankKept(RawLines(text));
        Ok(OptionLines(text))
  }

  /** The readers that catch every error and answer `[]` instead. */
  function LinesOrEmpty(files: map<FilePath, File>, p: FilePath): (r: seq<string>)
    ensures ReadLines(files, p).Ok? ==> r == ReadLines(files, p).value
    ensures ReadLines(files, p).Raise? ==> r == []
  {
    match ReadLines(files, p)
    case Ok(lines) => lines
    case Raise(_) => []
  }

  // -------------------------------------------------------- title - content

  /** A line is split at its first " - " into a title and a content; a line
      without " - " is both. */
  function ParseLine(line: string): (string, string) {
    match SplitOnce(line, " - ")
    case Some((title, content)) => (title, content)
    case None => (line, line)
  }

  /** Parsing a line loses nothing, and the title holds no " - ". */
  lemma ParseLineRoundTrip(line: string)
    ensures var (title, content) := ParseLine(line);
      if Contains(line, " - ")
      then title + " - " + content == line && !Contains(title, " - ")
      else title == line && content == line
  {
    var found := FindFrom(line, " - ", 0);
    if found.Some? {
      var j := found.value;
      Recompose(line, j, j + 3);
      if Contains(line[..j], " - ") {
        var q := FindFrom(line[..j], " - ", 0).value;
        OccursInSlice(line, " - ", 0, j, q);
        assert false;
      }
    }
  }

  /** Titles and contents of one wordlist, always of equal length. */
  type Parsed = p: (seq<string>, seq<string>) | |p.0| == |p.1| witness ([], [])

  /** The (title, content) lists of a file whose stripped lines are `lines`. */
  function ParseLines(lines: seq<string>): (r: Parsed)
    ensures |r.0| == |lines|
    ensures forall i | 0 <= i < |lines| :: (r.0[i], r.1[i]) == ParseLine(lines[i])
  {
    (seq(|lines|, i requires 0 <= i < |lines| => ParseLine(lines[i]).0),
     seq(|lines|, i requires 0 <= i < |lines| => ParseLine(lines[i]).1))
  }

  /** What `read_file_lines` of the current prompt-list node returns for a file. */
  function ParsedFile(files: map<FilePath, File>, p: FilePath): Parsed {
    match ReadLines(files, p)
    case Ok(lines) => ParseLines(lines)
    case Raise(_) => ([], [])
  }

  /** A file that cannot be read gives two empty lists; otherwise title and
      content lists run parallel to the file's stripped non-blank lines. */
  lemma ParsedFileSpec(files: map<FilePath, File>, p: FilePath)
    ensures var (titles, contents) := ParsedFile(files, p);
      && |titles| == |contents|
      && (ReadLines(files, p).Raise? ==> titles == [] && contents == [])
      && (ReadLines(files, p).Ok? ==>
            var lines := ReadLines(files, p).value;
            |titles| == |lines| && forall i | 0 <= i < |lines| :: (titles[i], contents[i]) == ParseLine(lines[i]))
  {
  }

  /** `read_file_lines` of the current prompt-list node: the stripped
      non-blank lines, each parsed into parallel title and content lists;
      `([], [])` when the file cannot be read. */
  method ReadFileLines(files: map<FilePath, File>, p: FilePath) returns (titles: seq<string>, contents: seq<string>)
    ensures (titles, contents) == ParsedFile(files, p)
  {
    var read := ReadLines(files, p);
    if read.Raise? {
      return [], [];
    }
    titles, contents := ParseEach(read.value);
    ghost var expected := ParseLines(read.value);
    assert titles == expected.0;
    assert contents == expected.1;
  }

  /** The loop of `read_file_lines`: each line split at its first " - ". */
  method ParseEach(lines: seq<string>) returns (titles: seq<string>, contents: seq<string>)
    ensures |titles| == |lines| && |contents| == |lines|
    ensures forall i | 0 <= i < |lines| :: (titles[i], contents[i]) == ParseLine(lines[i])
  {
    titles, contents := [], [];
    var i := 0;
    while i < |lines|
      invariant 0 <= i <= |lines|
      invariant |titles| == i && |contents| == i
      invariant forall j | 0 <= j < i :: (titles[j], contents[j]) == ParseLine(lines[j])
    {
      var line := lines[i];
      var parsed := SplitOnce(line, " - ");
      if parsed.Some? {
        var (title, content) := parsed.value;
        titles := titles + [title];
        contents := contents + [content];
      } else {
        titles := titles + [line];
        contents := contents + [line];
      }
      i := i + 1;
    }
  }

  // ------------------------------------------------------------------ names

  /** `os.path.splitext(name)[0]` for a bare file name: everything before the
      last ".", unless only dots precede it (".txt" has no extension). */
  function Stem(name: string): (r: string)
    ensures |r| <= |name| && r == name[..|r|]
  {
    match FindLastFrom(name, ".", |name| - 1)
    case None => name
    case Some(j) => if forall i | 0 <= i < j :: name[i] == '.' then name else name[..j]
  }

  /** A ".txt" file whose name does not start with a dot has the stem that
      the nodes append ".txt" to again. */
  lemma StemOfTxt(name: string)
    requires EndsWith(name, ".txt") && |name| > 4 && name[0] != '.'
    ensures Stem(name) + ".txt" == name
  {
    var j := |name| - 4;
    assert OccursAt(name, ".", j) by {
      assert name[j..j + 1] == name[j..][..1];
    }
    assert FindLastFrom(name, ".", |name| - 1) == Some(j) by {
      var r := FindLastFrom(name, ".", |name| - 1);
      assert name[j..] == ".txt";
      forall q | j < q < |name| ensures !OccursAt(name, ".", q) {
        assert name[q] == name[j..][q - j] != '.';
        assert name[q..q + 1][0] == name[q];
      }
    }
    Recompose(name, j, |name|);
  }

  /** The name shown in the menus: `original.split('.', 1)[-1]`, i.e. the
      part after the first "." of the stem, or the whole stem. */
  function CleanedName(original: string): string {
    match SplitOnce(original, ".")
    case Some((_, after)) => after
    case None => original
  }

  /** The lookup condition of `get_original_filename`. */
  predicate NameMatches(name: string, cleaned: string, txtOnly: bool) {
    (!txtOnly || EndsWith(name, ".txt")) && Contains(name, cleaned)
  }

  /** The first name in listing order that matches. */
  function FirstMatch(names: seq<string>, cleaned: string, txtOnly: bool): (r: Option<nat>)
    ensures r.Some? ==> r.value < |names| && NameMatches(names[r.value], cleaned, txtOnly)
    ensures r.Some? ==> forall j | 0 <= j < r.value :: !NameMatches(names[j], cleaned, txtOnly)
    ensures r.None? ==> forall j | 0 <= j < |names| :: !NameMatches(names[j], cleaned, txtOnly)
  {
    if names == [] then None
    else if NameMatches(names[0], cleaned, txtOnly) then Some(0)
    else
      match FirstMatch(names[1..], cleaned, txtOnly)
      case None => None
      case Some(j) => Some(j + 1)
  }

  /** `get_original_filename`: the stem of the first listed name containing
      the cleaned name (and, when `txtOnly`, ending in ".txt"), otherwise the
      cleaned name itself. */
  function OriginalFilename(names: seq<string>, cleaned: string, txtOnly: bool): string {
    match FirstMatch(names, cleaned, txtOnly)
    case Some(j) => Stem(names[j])
    case None => cleaned
  }

  /** What `get_original_filename` promises: the stem of the first matching
      name, or the cleaned name when none matches. */
  lemma OriginalFilenameFirstMatch(names: seq<string>, cleaned: string, txtOnly: bool)
    ensures var r := OriginalFilename(names, cleaned, txtOnly);
      || (exists j | 0 <= j < |names| ::
            && NameMatches(names[j], cleaned, txtOnly)
            && (forall q | 0 <= q < j :: !NameMatches(names[q], cleaned, txtOnly))
            && r == Stem(names[j]))
      || ((forall j | 0 <= j < |names| :: !NameMatches(names[j], cleaned, txtOnly)) && r == cleaned)
  {
  }

  // ------------------------------------------------------------------ cache

  /** What a cached read of `p` answers when the cache holds `entries`: the
      cached list when there is one, otherwise what the file holds. */
  function CacheView(entries: map<FilePath, seq<string>>, files: map<FilePath, File>, p: FilePath): seq<string> {
    if p in entries then entries[p] else LinesOrEmpty(files, p)
  }

  /** A node's `file_cache`: the options of each file read successfully. */
  class FileCache {
    var entries: map<FilePath, seq<string>>

    constructor()
      ensures entries == map[]
    {
      entries := map[];
    }

    function View(files: map<FilePath, File>, p: FilePath): seq<string>
      reads this
    {
      CacheView(entries, files, p)
    }

    /** Every cached list is what its file holds. */
    ghost predicate Agrees(files: map<FilePath, File>)
      reads this
    {
      forall p | p in entries :: ReadLines(files, p) == Ok(entries[p])
    }

    /** `read_file_options`: a cached path answers from the cache and changes
        nothing; otherwise the file is read, a success is cached, and a
        failure answers `[]` and is not cached. */
    method ReadFileOptions(files: map<FilePath, File>, p: FilePath) returns (options: seq<string>)
      modifies this
      ensures p in old(entries) ==> options == old(entries)[p] && entries == old(entries)
      ensures p !in old(entries) && ReadLines(files, p).Ok? ==>
        options == ReadLines(files, p).value && entries == old(entries)[p := options]
      ensures p !in old(entries) && ReadLines(files, p).Raise? ==>
        options == [] && entries == old(entries)
      ensures options == old(View(files, p))
      ensures forall q :: View(files, q) == old(View(files, q))
      ensures old(Agrees(files)) ==> Agrees(files) && options == LinesOrEmpty(files, p)
    {
      if p in entries {
        return entries[p];
      }
      var read := ReadLines(files, p);
      match read
      case Ok(lines) =>
        entries := entries[p := lines];
        options := lines;
      case Raise(_) =>
        options := [];
    }
  }
}
