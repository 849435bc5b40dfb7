/** The current prompt-list node (`PromptListNode` in py/WildPromptor.py): one
    node per data folder, whose menus offer "❌disabled", "🎲Random",
    "🔢ordered" or one of the file's titles for every wordlist, and whose
    `process_prompt` turns the selections into a batch of prompts. */
module PromptList {
  import opened Wrappers
  import opened Text
  import opened PyRandom
  import opened Wordlist
  import opened Combine

  const Disabled: string := "❌disabled"
  const RandomPick: string := "🎲Random"
  const OrderedPick: string := "🔢ordered"

  /** The three menu entries that are not file content. */
  predicate IsSentinel(v: string) {
    v == Disabled || v == RandomPick || v == OrderedPick
  }

  /** Keyword arguments that are node parameters, not wordlist selections. */
  predicate IsControl(key: string) {
    key == "batch_size" || key == "seed"
  }

  /** `get_txt_file_names`: the listed names ending in ".txt", in listing order. */
  function TxtNames(listing: seq<string>): (r: seq<string>)
    ensures forall f | f in r :: f in listing && EndsWith(f, ".txt")
    ensures forall f | f in listing && EndsWith(f, ".txt") :: f in r
  {
    if listing == [] then []
    else (if EndsWith(listing[0], ".txt") then [listing[0]] else []) + TxtNames(listing[1..])
  }

  /** The menu key of a wordlist file with `count` entries: "{cleaned} [{count}]". */
  function DisplayKey(fileName: string, count: nat): string {
    CleanedName(Stem(fileName)) + " [" + NatToString(count) + "]"
  }

  /** `key.split(' [')[0]`: the cleaned name back from a menu key. */
  function KeyName(key: string): string {
    FirstPiece(key, " [")
  }

  /** Reading a menu key gives back the cleaned name it was built from. */
  lemma DisplayKeyRoundTrip(fileName: string, count: nat)
    requires !Contains(CleanedName(Stem(fileName)), " [")
    ensures KeyName(DisplayKey(fileName, count)) == CleanedName(Stem(fileName))
  {
    var cleaned := CleanedName(Stem(fileName));
    NoOccurrenceAppended(cleaned, " ", " [");
    assert " ["[..1] == " ";
    FindFirstAt(cleaned, " [", NatToString(count) + "]");
    assert DisplayKey(fileName, count) == cleaned + " [" + (NatToString(count) + "]");
  }

  /** `self.file_contents[get_original_filename(key.split(' [')[0]) + '.txt']`,
      which raises KeyError for a name that is not a loaded file. */
  function Lookup(names: seq<string>, contents: map<string, Parsed>, key: string): Result<Parsed> {
    var name := OriginalFilename(names, KeyName(key), false) + ".txt";
    if name in contents then Ok(contents[name]) else Raise("KeyError")
  }

  /** `xs.index(x)`: the first position holding `x`. */
  function IndexOf(xs: seq<string>, x: string): (r: nat)
    requires x in xs
    ensures r < |xs| && xs[r] == x
    ensures forall q | 0 <= q < r :: xs[q] != x
  {
    if xs[0] == x then 0 else 1 + IndexOf(xs[1..], x)
  }

  /** The final test of the loop body: a value still equal to a menu entry
      is not appended. */
  function Emit(value: string, draws: nat): (s: Step)
    ensures s.Took? && s.draws == draws
    ensures s.pick.Part? <==> !IsSentinel(value)
    ensures s.pick.Part? ==> s.pick.text == value
  {
    if IsSentinel(value) then Took(Omit, draws) else Took(Part(value), draws)
  }

  /** One selection in iteration `i` after `k` draws. */
  function Resolve(names: seq<string>, contents: map<string, Parsed>, rng: nat -> nat,
                   key: string, value: string, i: nat, k: nat): Step
  {
    if IsControl(key) then Took(Omit, 0)
    else if value == RandomPick then
      match Lookup(names, contents, key)
      case Raise(e) => Raised(e)
      case Ok((_, lines)) => if lines != [] then Emit(Choice(lines, rng, k), 1) else Emit(value, 0)
    else if value == OrderedPick then
      match Lookup(names, contents, key)
      case Raise(e) => Raised(e)
      case Ok((_, lines)) => if lines != [] then Emit(lines[i % |lines|], 0) else Emit(value, 0)
    else if !IsSentinel(value) then
      match Lookup(names, contents, key)
      case Raise(e) => Raised(e)
      case Ok((titles, lines)) =>
        if titles != [] && value in titles then Emit(lines[IndexOf(titles, value)], 0) else Emit(value, 0)
    else Emit(value, 0)
  }

  function NodeResolver(names: seq<string>, contents: map<string, Parsed>, rng: nat -> nat): Combine.Resolver {
    (key: string, value: string, i: nat, k: nat) => Resolve(names, contents, rng, key, value, i, k)
  }

  /** `contents` holds, for exactly the files `names`, what
      `read_file_lines` gives for each file of `folder`. */
  predicate Loaded(files: map<FilePath, File>, folder: string, names: seq<string>, contents: map<string, Parsed>) {
    && (forall f | f in names :: f in contents && contents[f] == ParsedFile(files, FilePath(folder, f)))
    && (forall f | f in contents :: f in names)
  }

  /** Loading one more file keeps the contents loaded for the files so far. */
  lemma LoadedStep(files: map<FilePath, File>, folder: string, names: seq<string>, contents: map<string, Parsed>, f: string)
    requires Loaded(files, folder, names, contents)
    ensures Loaded(files, folder, names + [f], contents[f := ParsedFile(files, FilePath(folder, f))])
  {
  }

  /** The loading loop of `__init__`: every file of `names`, in order. */
  method LoadFiles(files: map<FilePath, File>, folder: string, names: seq<string>) returns (loaded: map<string, Parsed>)
    ensures Loaded(files, folder, names, loaded)
  {
    loaded := map[];
    var i := 0;
    while i < |names|
      invariant 0 <= i <= |names|
      invariant Loaded(files, folder, names[..i], loaded)
    {
      var titles, lines := ReadFileLines(files, FilePath(folder, names[i]));
      LoadedStep(files, folder, names[..i], loaded, names[i]);
      loaded := loaded[names[i] := (titles, lines)];
      assert names[..i + 1] == names[..i] + [names[i]];
      i := i + 1;
    }
    assert names[..|names|] == names;
  }

  class PromptListNode {
    const folder: string
    var fileNames: seq<string>
    var fileContents: map<string, Parsed>

    /** `__init__`: lists the folder's ".txt" files and loads every one
        through `read_file_lines`. `listing` is what `os.listdir` returns. */
    constructor(files: map<FilePath, File>, folder: string, listing: seq<string>)
      ensures this.folder == folder
      ensures fileNames == TxtNames(listing)
      ensures Loaded(files, folder, fileNames, fileContents)
    {
      var names := TxtNames(listing);
      var loaded := LoadFiles(files, folder, names);
      this.folder := folder;
      fileNames := names;
      fileContents := loaded;
    }

    /** `process_prompt(batch_size, seed, **kwargs)`; `rng` is the draw stream
        `random.seed(seed)` starts, `kwargs` the selections in argument order. */
    method ProcessPrompt(batchSize: nat, rng: nat -> nat, kwargs: seq<(string, string)>) returns (r: Result<seq<string>>)
      ensures r == OrBlank(Batch(NodeResolver(fileNames, fileContents, rng), kwargs, batchSize, ", "))
    {
      var batch := CombineBatch(NodeResolver(fileNames, fileContents, rng), kwargs, batchSize, ", ");
      r := OrBlank(batch);
    }
  }

  // ------------------------------------------------------------ properties

  /** Contents that never equal a menu entry. */
  ghost predicate SentinelFree(contents: map<string, Parsed>) {
    forall f | f in contents :: forall c | c in contents[f].1 :: !IsSentinel(c)
  }

  /** An "🔢ordered" selection of a non-empty file yields
      `contents[i % len(contents)]` in iteration `i`, for every iteration. */
  lemma OrderedSelection(names: seq<string>, contents: map<string, Parsed>, rng: nat -> nat, key: string, n: nat)
    requires !IsControl(key) && Lookup(names, contents, key).Ok?
    requires var lines := Lookup(names, contents, key).value.1;
      lines != [] && forall c | c in lines :: !IsSentinel(c)
    ensures var lines := Lookup(names, contents, key).value.1;
      var b := Batch(NodeResolver(names, contents, rng), [(key, OrderedPick)], n, ", ");
      b.Ok? && |b.value| == n && forall i | 0 <= i < n :: b.value[i] == lines[i % |lines|]
  {
    var lines := Lookup(names, contents, key).value.1;
    SingleEveryIteration(NodeResolver(names, contents, rng), (key, OrderedPick), n, ", ", (i: nat) => lines[i % |lines|]);
  }

  /** A "🎲Random" selection of a non-empty file yields one of its contents
      in every iteration. */
  lemma RandomSelection(names: seq<string>, contents: map<string, Parsed>, rng: nat -> nat, key: string, n: nat)
    requires !IsControl(key) && Lookup(names, contents, key).Ok?
    requires var lines := Lookup(names, contents, key).value.1;
      lines != [] && forall c | c in lines :: !IsSentinel(c)
    ensures var lines := Lookup(names, contents, key).value.1;
      var b := Batch(NodeResolver(names, contents, rng), [(key, RandomPick)], n, ", ");
      b.Ok? && |b.value| == n && forall r | r in b.value :: r in lines
  {
    var lines := Lookup(names, contents, key).value.1;
    var resolve := NodeResolver(names, contents, rng);
    SingleDrawnFrom(resolve, (key, RandomPick), n, ", ", lines);
    SteadyBatch(resolve, [(key, RandomPick)], (a: string, b: string) => true, n, ", ");
  }

  /** A value other than a menu entry is replaced by the content of the first
      title equal to it, and passed through when no title equals it. */
  lemma ExplicitValue(names: seq<string>, contents: map<string, Parsed>, rng: nat -> nat,
                      key: string, value: string, i: nat, k: nat)
    requires !IsControl(key) && !IsSentinel(value) && Lookup(names, contents, key).Ok?
    ensures var (titles, lines) := Lookup(names, contents, key).value;
      var s := Resolve(names, contents, rng, key, value, i, k);
      && (value !in titles ==> s == Took(Part(value), 0))
      && (value in titles ==> exists j | 0 <= j < |titles| ::
            && titles[j] == value
            && (forall q | 0 <= q < j :: titles[q] != value)
            && s == Emit(lines[j], 0))
  {
    var (titles, lines) := Lookup(names, contents, key).value;
    if value in titles {
      var j := IndexOf(titles, value);
      assert titles[j] == value;
    }
  }

  /** Whether a selection contributes depends on neither the iteration nor
      the draws. */
  ghost function Contributes(names: seq<string>, contents: map<string, Parsed>): (string, string) -> bool {
    (key: string, value: string) =>
      && !IsControl(key)
      && value != Disabled
      && ((value == RandomPick || value == OrderedPick) ==>
            Lookup(names, contents, key).Ok? && Lookup(names, contents, key).value.1 != [])
  }

  /** When every selection's file is loaded and no content equals a menu
      entry, the node returns exactly `batch_size` prompts, or `[""]` when no
      selection contributes (or the batch is empty). */
  lemma AllOrBlank(names: seq<string>, contents: map<string, Parsed>, rng: nat -> nat,
                   kwargs: seq<(string, string)>, n: nat)
    requires SentinelFree(contents)
    requires forall j | 0 <= j < |kwargs| ::
      !IsControl(kwargs[j].0) && kwargs[j].1 != Disabled ==> Lookup(names, contents, kwargs[j].0).Ok?
    ensures var r := OrBlank(Batch(NodeResolver(names, contents, rng), kwargs, n, ", "));
      r.Ok? && (if n > 0 && AnyContributes(kwargs, Contributes(names, contents)) then |r.value| == n else r.value == [""])
  {
    var resolve := NodeResolver(names, contents, rng);
    var contributes := Contributes(names, contents);
    forall j, i: nat, k: nat | 0 <= j < |kwargs|
      ensures var s := resolve(kwargs[j].0, kwargs[j].1, i, k);
        s.Took? && (s.pick.Part? <==> contributes(kwargs[j].0, kwargs[j].1))
    {
      var (key, value) := kwargs[j];
      if !IsControl(key) && !IsSentinel(value) {
        var (titles, lines) := Lookup(names, contents, key).value;
        if titles != [] && value in titles {
          var f := OriginalFilename(names, KeyName(key), false) + ".txt";
          assert lines[IndexOf(titles, value)] in contents[f].1;
        }
      } else if !IsControl(key) && value == RandomPick && Lookup(names, contents, key).value.1 != [] {
        var f := OriginalFilename(names, KeyName(key), false) + ".txt";
        assert Choice(Lookup(names, contents, key).value.1, rng, k) in contents[f].1;
      } else if !IsControl(key) && value == OrderedPick && Lookup(names, contents, key).value.1 != [] {
        var f := OriginalFilename(names, KeyName(key), false) + ".txt";
        var lines := Lookup(names, contents, key).value.1;
        assert lines[i % |lines|] in contents[f].1;
      }
    }
    SteadyBatch(resolve, kwargs, contributes, n, ", ");
  }
}
