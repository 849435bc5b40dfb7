/** The current All-In-One List and Generator nodes
    (py/WildPromptor_Generator.py). The list node offers every wordlist of
    every configured folder under a key "{folder} - {name} [{count}]" and
    passes on the selections that are not "❌disabled"; the generator node
    resolves them into a batch of prompts, reading files through its
    `file_cache`. */
module Generator {
  import opened Wrappers
  import opened Text
  import opened PyRandom
  import opened Wordlist
  import opened Combine

  const Disabled: string := "❌disabled"
  const RandomPick: string := "🎲Random"
  const OrderedPick: string := "🔢ordered"

  /** `AllInOneList.select_options`: the selections whose value is not
      "❌disabled", all others unchanged and in order. */
  function SelectOptions(kwargs: seq<(string, string)>): (r: seq<(string, string)>)
    ensures forall e :: e in r <==> e in kwargs && e.1 != Disabled
    ensures (forall j | 0 <= j < |kwargs| :: kwargs[j].1 != Disabled) ==> r == kwargs
  {
    DropFilters(kwargs, Disabled);
    Drop(kwargs, Disabled)
  }

  // ------------------------------------------------------------ menu keys

  /** The menu key of a wordlist: "{folder} - {cleaned name} [{count}]". */
  function DisplayKey(folder: string, name: string, count: nat): string {
    folder + " - " + name + " [" + NatToString(count) + "]"
  }

  /** `key.rsplit(' - ', 1)` and `file_info.split(' [')[0]`; `None` when the
      unpacking raises ValueError for a key without " - ". */
  function ParseKey(key: string): Option<(string, string)> {
    match RSplitOnce(key, " - ")
    case None => None
    case Some((folder, info)) => Some((folder, FirstPiece(info, " [")))
  }

  /** A menu key parses back into its folder and cleaned name whenever the
      name neither holds " [" nor makes a " - " with the spaces around it. */
  lemma DisplayKeyRoundTrip(folder: string, name: string, count: nat)
    requires !Contains(" " + name + " ", " - ") && !Contains(name, " [")
    ensures ParseKey(DisplayKey(folder, name, count)) == Some((folder, name))
  {
    var digits := NatToString(count);
    var tail := "[" + digits + "]";
    var rest := name + " [" + digits + "]";
    var key := DisplayKey(folder, name, count);
    NoOccurrencePrepended("-", " " + name + " ", " - ");
    NoOccurrenceAppended("-" + (" " + name + " "), tail, " - ");
    assert " - "[1..] + rest == "-" + (" " + name + " ") + tail;
    assert key == folder + " - " + rest;
    FindLastAt(folder, " - ", rest);
    assert key[..|folder|] == folder;
    assert key[|folder| + 3..] == rest;
    assert RSplitOnce(key, " - ") == Some((folder, rest));
    NoOccurrenceAppended(name, " ", " [");
    assert " ["[..1] == " ";
    assert rest == name + " [" + (digits + "]");
    FindFirstAt(name, " [", digits + "]");
    assert Split(rest, " [")[0] == rest[..|name|] == name;
  }

  // --------------------------------------------------------------- resolving

  /** `get_original_filename(folder, cleaned_name)`: the stem of the first
      ".txt" file of the folder whose name contains the cleaned name cut at
      " [", else that cut name; `os.listdir` raises for a missing folder. */
  function OriginalName(disk: Disk, folder: string, cleaned: string): Result<string> {
    match ListDir(disk, folder)
    case Raise(e) => Raise(e)
    case Ok(names) => Ok(OriginalFilename(names, FirstPiece(cleaned, " ["), true))
  }

  /** The file a "🎲Random" or "🔢ordered" selection reads. */
  function NeedOf(disk: Disk, key: string, value: string): Need {
    if value == RandomPick || value == OrderedPick then
      match ParseKey(key)
      case None => Fail("ValueError")
      case Some((folder, cleaned)) =>
        match OriginalName(disk, folder, cleaned)
        case Raise(e) => Fail(e)
        case Ok(original) => ReadFile(FilePath(folder, original + ".txt"))
    else NoFile
  }

  /** The branch of the loop body once the file's options are known. */
  function PickOf(allowDuplicates: bool, rng: nat -> nat, key: string, value: string, options: seq<string>, i: nat, k: nat): Step {
    if value == RandomPick then
      if options == [] then Took(Omit, 0)
      else if allowDuplicates then Took(Part(Choice(options, rng, k)), 1)
      else Took(Part(Sample(options, 1, rng, k)[0]), 1)
    else if value == OrderedPick then
      if options == [] then Took(Omit, 0) else Took(Part(options[i % |options|]), 0)
    else if value != Disabled then Took(Part(value), 0)
    else Took(Omit, 0)
  }

  function Needs(disk: Disk): (string, string) -> Need {
    (key: string, value: string) => NeedOf(disk, key, value)
  }

  function Picks(allowDuplicates: bool, rng: nat -> nat): Picker {
    (key: string, value: string, options: seq<string>, i: nat, k: nat) => PickOf(allowDuplicates, rng, key, value, options, i, k)
  }

  /** The resolver of a call that finds the cache holding `entries`. */
  function GeneratorResolver(disk: Disk, entries: map<FilePath, seq<string>>, allowDuplicates: bool, rng: nat -> nat): Resolver {
    CachedResolver(Needs(disk), Picks(allowDuplicates, rng), p => CacheView(entries, disk.files, p))
  }

  class WildPromptorGenerator {
    const fileCache: FileCache

    constructor()
      ensures fresh(fileCache) && fileCache.entries == map[]
    {
      fileCache := new FileCache();
    }

    /** `process_prompt(selected_options, batch_size, seed, allow_duplicates)`:
        records joined with ", ", with no fallback for an empty result. */
    method ProcessPrompt(disk: Disk, selected: seq<(string, string)>, batchSize: nat, rng: nat -> nat, allowDuplicates: bool)
      returns (r: Result<seq<string>>)
      modifies fileCache
      ensures r == Batch(GeneratorResolver(disk, old(fileCache.entries), allowDuplicates, rng), selected, batchSize, ", ")
      ensures forall q :: fileCache.View(disk.files, q) == old(fileCache.View(disk.files, q))
      ensures old(fileCache.Agrees(disk.files)) ==> fileCache.Agrees(disk.files)
    {
      r := CachedCombineBatch(fileCache, disk.files, Needs(disk), Picks(allowDuplicates, rng), selected, batchSize, ", ");
    }
  }

  // ------------------------------------------------------------ properties

  /** Both `allow_duplicates` branches of a "🎲Random" pick draw once and pick
      the same member of the options. */
  lemma RandomPickIsMember(allowDuplicates: bool, rng: nat -> nat, key: string, options: seq<string>, i: nat, k: nat)
    requires options != []
    ensures var s := PickOf(allowDuplicates, rng, key, RandomPick, options, i, k);
      s == Took(Part(Choice(options, rng, k)), 1) && s.pick.text in options
  {
    SampleOneIsChoice(options, rng, k);
  }

  /** An "🔢ordered" selection whose file the cache answers with non-empty
      `options` yields `options[i % len(options)]` in iteration `i`. */
  lemma OrderedSelection(disk: Disk, entries: map<FilePath, seq<string>>, allowDuplicates: bool, rng: nat -> nat,
                         key: string, n: nat)
    requires NeedOf(disk, key, OrderedPick).ReadFile?
    requires CacheView(entries, disk.files, NeedOf(disk, key, OrderedPick).path) != []
    ensures var options := CacheView(entries, disk.files, NeedOf(disk, key, OrderedPick).path);
      var b := Batch(GeneratorResolver(disk, entries, allowDuplicates, rng), [(key, OrderedPick)], n, ", ");
      b.Ok? && |b.value| == n && forall i | 0 <= i < n :: b.value[i] == options[i % |options|]
  {
    var options := CacheView(entries, disk.files, NeedOf(disk, key, OrderedPick).path);
    forall i: nat, k: nat ensures GeneratorResolver(disk, entries, allowDuplicates, rng)(key, OrderedPick, i, k) == Took(Part(options[i % |options|]), 0) {
      ResolverReads(disk, entries, allowDuplicates, rng, key, OrderedPick, i, k);
    }
    SingleEveryIteration(GeneratorResolver(disk, entries, allowDuplicates, rng), (key, OrderedPick), n, ", ",
      (i: nat) => options[i % |options|]);
  }

  /** How the generator's resolver answers a selection whose file is read. */
  lemma ResolverReads(disk: Disk, entries: map<FilePath, seq<string>>, allowDuplicates: bool, rng: nat -> nat,
                      key: string, value: string, i: nat, k: nat)
    requires NeedOf(disk, key, value).ReadFile?
    ensures GeneratorResolver(disk, entries, allowDuplicates, rng)(key, value, i, k)
      == PickOf(allowDuplicates, rng, key, value, CacheView(entries, disk.files, NeedOf(disk, key, value).path), i, k)
  {
  }

  /** A "🎲Random" selection yields a member of its file's options in every
      iteration, whichever `allow_duplicates` is. */
  lemma RandomSelection(disk: Disk, entries: map<FilePath, seq<string>>, allowDuplicates: bool, rng: nat -> nat,
                        key: string, n: nat)
    requires NeedOf(disk, key, RandomPick).ReadFile?
    requires CacheView(entries, disk.files, NeedOf(disk, key, RandomPick).path) != []
    ensures var options := CacheView(entries, disk.files, NeedOf(disk, key, RandomPick).path);
      var b := Batch(GeneratorResolver(disk, entries, allowDuplicates, rng), [(key, RandomPick)], n, ", ");
      b.Ok? && |b.value| == n && forall r | r in b.value :: r in options
  {
    var options := CacheView(entries, disk.files, NeedOf(disk, key, RandomPick).path);
    var resolve := GeneratorResolver(disk, entries, allowDuplicates, rng);
    var always := (a: string, b: string) => true;
    forall i: nat, k: nat ensures resolve(key, RandomPick, i, k) == Took(Part(Choice(options, rng, k)), 1) {
      ResolverReads(disk, entries, allowDuplicates, rng, key, RandomPick, i, k);
      RandomPickIsMember(allowDuplicates, rng, key, options, i, k);
    }
    SingleDrawnFrom(resolve, (key, RandomPick), n, ", ", options);
    assert Steady(resolve, [(key, RandomPick)], always);
    assert AnyContributes([(key, RandomPick)], always) by {
      assert always([(key, RandomPick)][0].0, [(key, RandomPick)][0].1);
    }
    SteadyBatch(resolve, [(key, RandomPick)], always, n, ", ");
  }

  /** Any other value that is not "❌disabled" is passed through verbatim in
      every iteration, without reading a file. */
  lemma VerbatimSelection(disk: Disk, entries: map<FilePath, seq<string>>, allowDuplicates: bool, rng: nat -> nat,
                          key: string, value: string, n: nat)
    requires value != Disabled && value != RandomPick && value != OrderedPick
    ensures Batch(GeneratorResolver(disk, entries, allowDuplicates, rng), [(key, value)], n, ", ") == Ok(seq(n, i => value))
  {
    var b := Batch(GeneratorResolver(disk, entries, allowDuplicates, rng), [(key, value)], n, ", ");
    SingleEveryIteration(GeneratorResolver(disk, entries, allowDuplicates, rng), (key, value), n, ", ", (i: nat) => value);
    assert b.value == seq(n, i => value);
  }

  /** With nothing that contributes (only "❌disabled" selections, or none),
      the generator returns an empty list rather than `[""]`. */
  lemma NothingSelected(disk: Disk, entries: map<FilePath, seq<string>>, allowDuplicates: bool, rng: nat -> nat,
                        selected: seq<(string, string)>, n: nat)
    requires forall j | 0 <= j < |selected| :: selected[j].1 == Disabled
    ensures Batch(GeneratorResolver(disk, entries, allowDuplicates, rng), selected, n, ", ") == Ok([])
  {
    var resolve := GeneratorResolver(disk, entries, allowDuplicates, rng);
    var never := (a: string, b: string) => false;
    SteadyBatch(resolve, selected, never, n, ", ");
  }
}
