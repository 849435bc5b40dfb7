/** The older All-In-One List and Generator nodes at the repository root
    (WildPromptorGenerator.py): keys "{folder} - {name}", sentinels
    "disabled" and "🎲 Random", records joined with ",", no `[""]` fallback,
    and a `file_cache` like the current generator's. */
module LegacyGenerator {
  import opened Wrappers
  import opened Text
  import opened PyRandom
  import opened Wordlist
  import opened Combine

  const Disabled: string := "disabled"
  const RandomPick: string := "🎲 Random"

  /** `AllInOneList.select_options`: the selections whose value is not
      "disabled", all others unchanged and in order. It differs from
      `Generator.SelectOptions` only in the sentinel, "disabled" here. */
  function SelectOptions(kwargs: seq<(string, string)>): (r: seq<(string, string)>)
    ensures forall e :: e in r <==> e in kwargs && e.1 != Disabled
    ensures (forall j | 0 <= j < |kwargs| :: kwargs[j].1 != Disabled) ==> r == kwargs
  {
    DropFilters(kwargs, Disabled);
    Drop(kwargs, Disabled)
  }

  /** What arrives at the `selected_options` input: the dictionary of
      selections, or a value of any other type. */
  datatype Selected = Options(entries: seq<(string, string)>) | NotADict

  /** The file a "🎲 Random" selection reads; `key.split(' - ')` must unpack
      into exactly two names and the folder must exist. */
  function NeedOf(disk: Disk, key: string, value: string): Need {
    if value == RandomPick then
      match SplitPair(key, " - ")
      case None => Fail("ValueError")
      case Some((folder, cleaned)) =>
        match ListDir(disk, folder)
        case Raise(e) => Fail(e)
        case Ok(names) => ReadFile(FilePath(folder, OriginalFilename(names, cleaned, true) + ".txt"))
    else NoFile
  }

  function PickOf(allowDuplicates: bool, rng: nat -> nat, key: string, value: string, options: seq<string>, i: nat, k: nat): Step {
    if value == RandomPick then
      if options == [] then Took(Omit, 0)
      else if allowDuplicates then Took(Part(Choice(options, rng, k)), 1)
      else Took(Part(Sample(options, 1, rng, k)[0]), 1)
    else if value != Disabled then Took(Part(value), 0)
    else Took(Omit, 0)
  }

  function Needs(disk: Disk): (string, string) -> Need {
    (key: string, value: string) => NeedOf(disk, key, value)
  }

  function Picks(allowDuplicates: bool, rng: nat -> nat): Picker {
    (key: string, value: string, options: seq<string>, i: nat, k: nat) => PickOf(allowDuplicates, rng, key, value, options, i, k)
  }

  function GeneratorResolver(disk: Disk, entries: map<FilePath, seq<string>>, allowDuplicates: bool, rng: nat -> nat): Resolver {
    CachedResolver(Needs(disk), Picks(allowDuplicates, rng), p => CacheView(entries, disk.files, p))
  }

  /** The result of `process_prompt` when the cache holds `entries`. */
  function Outcome(disk: Disk, entries: map<FilePath, seq<string>>, selected: Selected, promptCount: nat,
                   rng: nat -> nat, allowDuplicates: bool): Result<seq<string>> {
    match selected
    case NotADict => Raise("ValueError")
    case Options(kwargs) => Batch(GeneratorResolver(disk, entries, allowDuplicates, rng), kwargs, promptCount, ",")
  }

  class LegacyGeneratorNode {
    const fileCache: FileCache

    constructor()
      ensures fresh(fileCache) && fileCache.entries == map[]
    {
      fileCache := new FileCache();
    }

    /** `process_prompt(selected_options, prompt_count, seed, allow_duplicates)`. */
    method ProcessPrompt(disk: Disk, selected: Selected, promptCount: nat, rng: nat -> nat, allowDuplicates: bool)
      returns (r: Result<seq<string>>)
      modifies fileCache
      ensures r == Outcome(disk, old(fileCache.entries), selected, promptCount, rng, allowDuplicates)
      ensures forall q :: fileCache.View(disk.files, q) == old(fileCache.View(disk.files, q))
      ensures old(fileCache.Agrees(disk.files)) ==> fileCache.Agrees(disk.files)
    {
      match selected {
        case NotADict =>
          r := Raise("ValueError");
        case Options(kwargs) =>
          r := CachedCombineBatch(fileCache, disk.files, Needs(disk), Picks(allowDuplicates, rng), kwargs, promptCount, ",");
      }
    }
  }

  // ------------------------------------------------------------ properties

  lemma ResolverReads(disk: Disk, entries: map<FilePath, seq<string>>, allowDuplicates: bool, rng: nat -> nat,
                      key: string, value: string, i: nat, k: nat)
    requires NeedOf(disk, key, value).ReadFile?
    ensures GeneratorResolver(disk, entries, allowDuplicates, rng)(key, value, i, k)
      == PickOf(allowDuplicates, rng, key, value, CacheView(entries, disk.files, NeedOf(disk, key, value).path), i, k)
  {
  }

  /** A "🎲 Random" selection yields a member of its file's options in every
      iteration, whichever `allow_duplicates` is. */
  lemma RandomSelection(disk: Disk, entries: map<FilePath, seq<string>>, allowDuplicates: bool, rng: nat -> nat,
                        key: string, n: nat)
    requires NeedOf(disk, key, RandomPick).ReadFile?
    requires CacheView(entries, disk.files, NeedOf(disk, key, RandomPick).path) != []
    ensures var options := CacheView(entries, disk.files, NeedOf(disk, key, RandomPick).path);
      var b := Outcome(disk, entries, Options([(key, RandomPick)]), n, rng, allowDuplicates);
      b.Ok? && |b.value| == n && forall r | r in b.value :: r in options
  {
    var options := CacheView(entries, disk.files, NeedOf(disk, key, RandomPick).path);
    var resolve := GeneratorResolver(disk, entries, allowDuplicates, rng);
    var always := (a: string, b: string) => true;
    forall i: nat, k: nat ensures resolve(key, RandomPick, i, k) == Took(Part(Choice(options, rng, k)), 1) {
      ResolverReads(disk, entries, allowDuplicates, rng, key, RandomPick, i, k);
      SampleOneIsChoice(options, rng, k);
    }
    SingleDrawnFrom(resolve, (key, RandomPick), n, ",", options);
    assert Steady(resolve, [(key, RandomPick)], always);
    assert AnyContributes([(key, RandomPick)], always) by {
      assert always([(key, RandomPick)][0].0, [(key, RandomPick)][0].1);
    }
    SteadyBatch(resolve, [(key, RandomPick)], always, n, ",");
  }

  /** Any value other than the two sentinels is appended verbatim. */
  lemma VerbatimSelection(disk: Disk, entries: map<FilePath, seq<string>>, allowDuplicates: bool, rng: nat -> nat,
                          key: string, value: string, n: nat)
    requires value != Disabled && value != RandomPick
    ensures Outcome(disk, entries, Options([(key, value)]), n, rng, allowDuplicates) == Ok(seq(n, i => value))
  {
    var resolve := GeneratorResolver(disk, entries, allowDuplicates, rng);
    SingleEveryIteration(resolve, (key, value), n, ",", (i: nat) => value);
    assert Batch(resolve, [(key, value)], n, ",").value == seq(n, i => value);
  }

  /** Without a contributing selection the result is the empty list. */
  lemma NothingSelected(disk: Disk, entries: map<FilePath, seq<string>>, allowDuplicates: bool, rng: nat -> nat,
                        kwargs: seq<(string, string)>, n: nat)
    requires forall j | 0 <= j < |kwargs| :: kwargs[j].1 == Disabled
    ensures Outcome(disk, entries, Options(kwargs), n, rng, allowDuplicates) == Ok([])
  {
    var never := (a: string, b: string) => false;
    SteadyBatch(GeneratorResolver(disk, entries, allowDuplicates, rng), kwargs, never, n, ",");
  }
}
