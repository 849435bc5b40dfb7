/** The current All-in-One node (py/WildPromptor_AllInOne.py): the menu keys
    of the All-In-One List and the generator in one node. Only "🎲Random"
    selections contribute; files are read without a cache and without
    catching errors, so a missing file aborts the call. */
module AllInOne {
  import opened Wrappers
  import opened Text
  import opened PyRandom
  import opened Wordlist
  import opened Combine
  import Generator

  /** The keyword arguments that configure the node rather than select a list. */
  predicate IsControl(key: string) {
    key == "batch_size" || key == "seed" || key == "allow_duplicates"
  }

  /** `key.split(' - ', 1)` unpacked into folder and cleaned name, the latter
      cut at " ["; `None` when there is no " - " and the unpacking raises. */
  function ParseKey(key: string): Option<(string, string)> {
    match SplitOnce(key, " - ")
    case None => None
    case Some((folder, rest)) => Some((folder, FirstPiece(rest, " [")))
  }

  /** A menu key parses back into its folder and cleaned name whenever the
      folder holds no " - " (nor one completed by the separator) and the name
      holds no " [". */
  lemma DisplayKeyRoundTrip(folder: string, name: string, count: nat)
    requires !Contains(folder + " -", " - ") && !Contains(name, " [")
    ensures ParseKey(Generator.DisplayKey(folder, name, count)) == Some((folder, name))
  {
    var digits := NatToString(count);
    var rest := name + " [" + digits + "]";
    var key := Generator.DisplayKey(folder, name, count);
    assert " - "[..2] == " -";
    assert key == folder + " - " + rest;
    FindFirstAt(folder, " - ", rest);
    assert key[..|folder|] == folder;
    assert key[|folder| + 3..] == rest;
    NoOccurrenceAppended(name, " ", " [");
    assert " ["[..1] == " ";
    assert rest == name + " [" + (digits + "]");
    FindFirstAt(name, " [", digits + "]");
    assert Split(rest, " [")[0] == rest[..|name|] == name;
  }

  /** The file a "🎲Random" key names, or the exception finding it raises. */
  function RandomFile(disk: Disk, key: string): Result<FilePath> {
    match ParseKey(key)
    case None => Raise("ValueError")
    case Some((folder, cleaned)) =>
      match ListDir(disk, folder)
      case Raise(e) => Raise(e)
      case Ok(names) => Ok(FilePath(folder, OriginalFilename(names, cleaned, true) + ".txt"))
  }

  /** One selection in one iteration of `process_prompt`. */
  function Resolve(disk: Disk, allowDuplicates: bool, rng: nat -> nat, key: string, value: string, i: nat, k: nat): Step {
    if IsControl(key) || value != Generator.RandomPick then Took(Omit, 0)
    else
      match RandomFile(disk, key)
      case Raise(e) => Raised(e)
      case Ok(p) =>
        match ReadLines(disk.files, p)
        case Raise(e) => Raised(e)
        case Ok(options) =>
          if options == [] then Took(Omit, 0)
          else if allowDuplicates then Took(Part(Choice(options, rng, k)), 1)
          else Took(Part(Sample(options, 1, rng, k)[0]), 1)
  }

  function NodeResolver(disk: Disk, allowDuplicates: bool, rng: nat -> nat): Resolver {
    (key: string, value: string, i: nat, k: nat) => Resolve(disk, allowDuplicates, rng, key, value, i, k)
  }

  /** `process_prompt(batch_size, seed, allow_duplicates, **kwargs)`: records
      joined with ",", and `[""]` when there are none. */
  method ProcessPrompt(disk: Disk, batchSize: nat, rng: nat -> nat, allowDuplicates: bool, kwargs: seq<(string, string)>)
    returns (r: Result<seq<string>>)
    ensures r == OrBlank(Batch(NodeResolver(disk, allowDuplicates, rng), kwargs, batchSize, ","))
  {
    var batch := CombineBatch(NodeResolver(disk, allowDuplicates, rng), kwargs, batchSize, ",");
    r := OrBlank(batch);
  }

  // ------------------------------------------------------------ properties

  /** A "🎲Random" key whose file reads as a non-empty list yields, in every
      iteration, the option `random.choice` draws, whichever
      `allow_duplicates` is. */
  lemma RandomDraw(disk: Disk, allowDuplicates: bool, rng: nat -> nat, key: string, i: nat, k: nat)
    requires !IsControl(key) && RandomFile(disk, key).Ok?
    requires ReadLines(disk.files, RandomFile(disk, key).value).Ok?
    requires ReadLines(disk.files, RandomFile(disk, key).value).value != []
    ensures var options := ReadLines(disk.files, RandomFile(disk, key).value).value;
      Resolve(disk, allowDuplicates, rng, key, Generator.RandomPick, i, k) == Took(Part(Choice(options, rng, k)), 1)
  {
    SampleOneIsChoice(ReadLines(disk.files, RandomFile(disk, key).value).value, rng, k);
  }

  /** A single "🎲Random" selection with a non-empty file gives `batch_size`
      prompts, each one of the file's stripped, non-blank lines. */
  lemma RandomSelection(disk: Disk, allowDuplicates: bool, rng: nat -> nat, key: string, n: nat)
    requires !IsControl(key) && RandomFile(disk, key).Ok?
    requires ReadLines(disk.files, RandomFile(disk, key).value).Ok?
    requires ReadLines(disk.files, RandomFile(disk, key).value).value != []
    ensures var options := ReadLines(disk.files, RandomFile(disk, key).value).value;
      var r := OrBlank(Batch(NodeResolver(disk, allowDuplicates, rng), [(key, Generator.RandomPick)], n, ","));
      r.Ok? && (n > 0 ==> |r.value| == n && forall x | x in r.value :: x in options)
  {
    var options := ReadLines(disk.files, RandomFile(disk, key).value).value;
    var resolve := NodeResolver(disk, allowDuplicates, rng);
    var always := (a: string, b: string) => true;
    forall i: nat, k: nat ensures resolve(key, Generator.RandomPick, i, k) == Took(Part(Choice(options, rng, k)), 1) {
      RandomDraw(disk, allowDuplicates, rng, key, i, k);
    }
    SingleDrawnFrom(resolve, (key, Generator.RandomPick), n, ",", options);
    assert Steady(resolve, [(key, Generator.RandomPick)], always);
    assert AnyContributes([(key, Generator.RandomPick)], always) by {
      assert always([(key, Generator.RandomPick)][0].0, [(key, Generator.RandomPick)][0].1);
    }
    SteadyBatch(resolve, [(key, Generator.RandomPick)], always, n, ",");
  }

  /** A "🎲Random" key whose file cannot be read makes the whole call raise
      the reading error, as soon as the batch is not empty. */
  lemma UnreadableRaises(disk: Disk, allowDuplicates: bool, rng: nat -> nat, key: string, n: nat)
    requires !IsControl(key) && RandomFile(disk, key).Ok?
    requires ReadLines(disk.files, RandomFile(disk, key).value).Raise?
    requires n > 0
    ensures OrBlank(Batch(NodeResolver(disk, allowDuplicates, rng), [(key, Generator.RandomPick)], n, ","))
      == Raise(ReadLines(disk.files, RandomFile(disk, key).value).error)
  {
    var resolve := NodeResolver(disk, allowDuplicates, rng);
    var kv := (key, Generator.RandomPick);
    assert [kv][..0] == [];
    assert Parts(resolve, [kv][..0], 0, 0) == Ok(([], 0));
    assert Records(resolve, [kv], 1, ",").Raise?;
    RecordsRaisePersists(resolve, [kv], 1, n, ",");
  }

  /** Whether a selection adds a part to every record: a "🎲Random" value on
      a non-control key whose file reads as a non-empty list. */
  predicate Contributes(disk: Disk, key: string, value: string) {
    && !IsControl(key) && value == Generator.RandomPick && RandomFile(disk, key).Ok?
    && ReadLines(disk.files, RandomFile(disk, key).value).Ok?
    && ReadLines(disk.files, RandomFile(disk, key).value).value != []
  }

  /** A selection whose file, if it needs one, can be found and read always
      resolves, to a part exactly when it contributes. */
  lemma ResolveSteady(disk: Disk, allowDuplicates: bool, rng: nat -> nat, key: string, value: string, i: nat, k: nat)
    requires !IsControl(key) && value == Generator.RandomPick ==>
      RandomFile(disk, key).Ok? && ReadLines(disk.files, RandomFile(disk, key).value).Ok?
    ensures var s := Resolve(disk, allowDuplicates, rng, key, value, i, k);
      s.Took? && (s.pick.Part? <==> Contributes(disk, key, value))
  {
    if !IsControl(key) && value == Generator.RandomPick {
      var options := ReadLines(disk.files, RandomFile(disk, key).value).value;
      if options != [] {
        RandomDraw(disk, allowDuplicates, rng, key, i, k);
      }
    }
  }

  lemma SteadyNode(disk: Disk, allowDuplicates: bool, rng: nat -> nat, kwargs: seq<(string, string)>)
    requires forall j | 0 <= j < |kwargs| && !IsControl(kwargs[j].0) && kwargs[j].1 == Generator.RandomPick ::
      RandomFile(disk, kwargs[j].0).Ok? && ReadLines(disk.files, RandomFile(disk, kwargs[j].0).value).Ok?
    ensures Steady(NodeResolver(disk, allowDuplicates, rng), kwargs, (key: string, value: string) => Contributes(disk, key, value))
  {
    forall j, i: nat, k: nat | 0 <= j < |kwargs|
      ensures var s := Resolve(disk, allowDuplicates, rng, kwargs[j].0, kwargs[j].1, i, k);
        s.Took? && (s.pick.Part? <==> Contributes(disk, kwargs[j].0, kwargs[j].1))
    {
      ResolveSteady(disk, allowDuplicates, rng, kwargs[j].0, kwargs[j].1, i, k);
    }
  }

  /** When every "🎲Random" key's file can be found and read, all prompts
      have the same shape: each joins with "," exactly one drawn option per
      contributing key, and there are `batch_size` of them, or `[""]` when no
      key contributes. */
  lemma RecordParts(disk: Disk, allowDuplicates: bool, rng: nat -> nat, kwargs: seq<(string, string)>, n: nat)
    requires forall j | 0 <= j < |kwargs| && !IsControl(kwargs[j].0) && kwargs[j].1 == Generator.RandomPick ::
      RandomFile(disk, kwargs[j].0).Ok? && ReadLines(disk.files, RandomFile(disk, kwargs[j].0).value).Ok?
    ensures var contributes := (key: string, value: string) => Contributes(disk, key, value);
      var r := OrBlank(Batch(NodeResolver(disk, allowDuplicates, rng), kwargs, n, ","));
      && r.Ok?
      && (if n > 0 && AnyContributes(kwargs, contributes) then |r.value| == n else r.value == [""])
      && (n > 0 && AnyContributes(kwargs, contributes) ==> forall x | x in r.value ::
            exists parts: seq<string> :: |parts| == Contributing(kwargs, contributes) && x == Join(parts, ","))
  {
    var contributes := (key: string, value: string) => Contributes(disk, key, value);
    var resolve := NodeResolver(disk, allowDuplicates, rng);
    SteadyNode(disk, allowDuplicates, rng, kwargs);
    SteadyBatchShape(resolve, kwargs, contributes, n, ",");
  }

  /** Values other than "🎲Random" (an "🔢ordered" pick or an option chosen
      by hand) are ignored: with no random selection the node returns `[""]`. */
  lemma OnlyRandomContributes(disk: Disk, allowDuplicates: bool, rng: nat -> nat, kwargs: seq<(string, string)>, n: nat)
    requires forall j | 0 <= j < |kwargs| :: kwargs[j].1 != Generator.RandomPick
    ensures OrBlank(Batch(NodeResolver(disk, allowDuplicates, rng), kwargs, n, ",")) == Ok([""])
  {
    var never := (a: string, b: string) => false;
    SteadyBatch(NodeResolver(disk, allowDuplicates, rng), kwargs, never, n, ",");
  }
}
