/** The older All-in-One node at the repository root (WildPromptorAllInOne.py):
    keys "{folder} - {name}" unpacked with `split(' - ', 1)`, sentinels
    "disabled" and "🎲 Random", reading errors caught as an empty list, any
    other value appended verbatim, records joined with ",". */
module LegacyAllInOne {
  import opened Wrappers
  import opened Text
  import opened PyRandom
  import opened Wordlist
  import opened Combine
  import LegacyPromptList

  const Disabled: string := "disabled"
  const RandomPick: string := "🎲 Random"

  predicate IsControl(key: string) {
    key == "prompt_count" || key == "seed"
  }

  /** `key.split(' - ', 1)` recovers folder and name of a menu key whenever
      the folder holds no " - " and does not end in a space; the name may
      hold anything. */
  lemma DisplayKeyRoundTrip(folder: string, name: string)
    requires !Contains(folder + " -", " - ")
    ensures SplitOnce(LegacyPromptList.DisplayKey(folder, name), " - ") == Some((folder, name))
  {
    var key := LegacyPromptList.DisplayKey(folder, name);
    assert " - "[..2] == " -";
    FindFirstAt(folder, " - ", name);
    assert key[..|folder|] == folder;
    assert key[|folder| + 3..] == name;
  }

  /** The lines a "🎲 Random" key draws from: the stripped non-blank lines of
      the first matching ".txt" file, or none when it cannot be read. */
  function RandomOptions(disk: Disk, folder: string, cleaned: string): Result<seq<string>> {
    match ListDir(disk, folder)
    case Raise(e) => Raise(e)
    case Ok(names) => Ok(LinesOrEmpty(disk.files, FilePath(folder, OriginalFilename(names, cleaned, true) + ".txt")))
  }

  function Resolve(disk: Disk, rng: nat -> nat, key: string, value: string, i: nat, k: nat): Step {
    if IsControl(key) || value == Disabled then Took(Omit, 0)
    else if value == RandomPick then
      match SplitOnce(key, " - ")
      case None => Raised("ValueError")
      case Some((folder, cleaned)) =>
        match RandomOptions(disk, folder, cleaned)
        case Raise(e) => Raised(e)
        case Ok(options) =>
          if options == [] then Took(Omit, 0) else Took(Part(Choice(options, rng, k)), 1)
    else Took(Part(value), 0)
  }

  function NodeResolver(disk: Disk, rng: nat -> nat): Resolver {
    (key: string, value: string, i: nat, k: nat) => Resolve(disk, rng, key, value, i, k)
  }

  /** `process_prompt(prompt_count, seed, **kwargs)`. */
  method ProcessPrompt(disk: Disk, promptCount: nat, rng: nat -> nat, kwargs: seq<(string, string)>)
    returns (r: Result<seq<string>>)
    ensures r == OrBlank(Batch(NodeResolver(disk, rng), kwargs, promptCount, ","))
  {
    var batch := CombineBatch(NodeResolver(disk, rng), kwargs, promptCount, ",");
    r := OrBlank(batch);
  }

  // ------------------------------------------------------------ properties

  /** A "🎲 Random" selection with a non-empty list yields one of its lines in
      each of the `prompt_count` prompts. */
  lemma RandomSelection(disk: Disk, rng: nat -> nat, key: string, n: nat)
    requires !IsControl(key) && SplitOnce(key, " - ").Some?
    requires var (folder, cleaned) := SplitOnce(key, " - ").value;
      RandomOptions(disk, folder, cleaned).Ok? && RandomOptions(disk, folder, cleaned).value != []
    ensures var (folder, cleaned) := SplitOnce(key, " - ").value;
      var options := RandomOptions(disk, folder, cleaned).value;
      var r := OrBlank(Batch(NodeResolver(disk, rng), [(key, RandomPick)], n, ","));
      r.Ok? && (n > 0 ==> |r.value| == n && forall x | x in r.value :: x in options)
  {
    var (folder, cleaned) := SplitOnce(key, " - ").value;
    var options := RandomOptions(disk, folder, cleaned).value;
    var resolve := NodeResolver(disk, rng);
    var always := (a: string, b: string) => true;
    SingleDrawnFrom(resolve, (key, RandomPick), n, ",", options);
    assert Steady(resolve, [(key, RandomPick)], always);
    assert AnyContributes([(key, RandomPick)], always) by {
      assert always([(key, RandomPick)][0].0, [(key, RandomPick)][0].1);
    }
    SteadyBatch(resolve, [(key, RandomPick)], always, n, ",");
  }

  /** Whether a selection adds a part to every record: any value but the two
      sentinels on a non-control key, the "🎲 Random" one only when its list
      is non-empty. */
  predicate Contributes(disk: Disk, key: string, value: string) {
    && !IsControl(key) && value != Disabled
    && (value == RandomPick ==>
          && SplitOnce(key, " - ").Some?
          && RandomOptions(disk, SplitOnce(key, " - ").value.0, SplitOnce(key, " - ").value.1).Ok?
          && RandomOptions(disk, SplitOnce(key, " - ").value.0, SplitOnce(key, " - ").value.1).value != [])
  }

  /** The folder a "🎲 Random" key names can be listed. */
  predicate RandomKeyListed(disk: Disk, key: string) {
    SplitOnce(key, " - ").Some? && RandomOptions(disk, SplitOnce(key, " - ").value.0, SplitOnce(key, " - ").value.1).Ok?
  }

  /** A selection whose key, if it is a random pick, names a folder that can
      be listed always resolves, to a part exactly when it contributes. */
  lemma ResolveSteady(disk: Disk, rng: nat -> nat, key: string, value: string, i: nat, k: nat)
    requires !IsControl(key) && value == RandomPick ==> RandomKeyListed(disk, key)
    ensures var s := Resolve(disk, rng, key, value, i, k);
      s.Took? && (s.pick.Part? <==> Contributes(disk, key, value))
  {
  }

  lemma SteadyNode(disk: Disk, rng: nat -> nat, kwargs: seq<(string, string)>)
    requires forall j | 0 <= j < |kwargs| && !IsControl(kwargs[j].0) && kwargs[j].1 == RandomPick ::
      RandomKeyListed(disk, kwargs[j].0)
    ensures Steady(NodeResolver(disk, rng), kwargs, (key: string, value: string) => Contributes(disk, key, value))
  {
    forall j, i: nat, k: nat | 0 <= j < |kwargs|
      ensures var s := Resolve(disk, rng, kwargs[j].0, kwargs[j].1, i, k);
        s.Took? && (s.pick.Part? <==> Contributes(disk, kwargs[j].0, kwargs[j].1))
    {
      ResolveSteady(disk, rng, kwargs[j].0, kwargs[j].1, i, k);
    }
  }

  /** When every "🎲 Random" key names a folder that can be listed, all
      prompts have the same shape: each joins with "," exactly one part per
      contributing key (a drawn line, or the value itself), and there are
      `prompt_count` of them, or `[""]` when no key contributes. */
  lemma RecordParts(disk: Disk, rng: nat -> nat, kwargs: seq<(string, string)>, n: nat)
    requires forall j | 0 <= j < |kwargs| && !IsControl(kwargs[j].0) && kwargs[j].1 == RandomPick ::
      RandomKeyListed(disk, kwargs[j].0)
    ensures var contributes := (key: string, value: string) => Contributes(disk, key, value);
      var r := OrBlank(Batch(NodeResolver(disk, rng), kwargs, n, ","));
      && r.Ok?
      && (if n > 0 && AnyContributes(kwargs, contributes) then |r.value| == n else r.value == [""])
      && (n > 0 && AnyContributes(kwargs, contributes) ==> forall x | x in r.value ::
            exists parts: seq<string> :: |parts| == Contributing(kwargs, contributes) && x == Join(parts, ","))
  {
    var contributes := (key: string, value: string) => Contributes(disk, key, value);
    var resolve := NodeResolver(disk, rng);
    SteadyNode(disk, rng, kwargs);
    SteadyBatchShape(resolve, kwargs, contributes, n, ",");
  }

  /** A file that cannot be read counts as empty: the key adds nothing, and a
      call with nothing else selected returns `[""]`. */
  lemma UnreadableIsEmpty(disk: Disk, rng: nat -> nat, key: string, n: nat)
    requires !IsControl(key) && SplitOnce(key, " - ").Some?
    requires var (folder, cleaned) := SplitOnce(key, " - ").value;
      folder in disk.listings &&
      ReadLines(disk.files, FilePath(folder, OriginalFilename(disk.listings[folder], cleaned, true) + ".txt")).Raise?
    ensures OrBlank(Batch(NodeResolver(disk, rng), [(key, RandomPick)], n, ",")) == Ok([""])
  {
    var never := (a: string, b: string) => false;
    SteadyBatch(NodeResolver(disk, rng), [(key, RandomPick)], never, n, ",");
  }

  /** Any value other than the two sentinels is appended verbatim, so every
      record holds one part per such selection. */
  lemma VerbatimSelection(disk: Disk, rng: nat -> nat, key: string, value: string, n: nat)
    requires !IsControl(key) && value != Disabled && value != RandomPick
    ensures OrBlank(Batch(NodeResolver(disk, rng), [(key, value)], n, ",")) == Ok(if n > 0 then seq(n, i => value) else [""])
  {
    var resolve := NodeResolver(disk, rng);
    SingleEveryIteration(resolve, (key, value), n, ",", (i: nat) => value);
    assert Batch(resolve, [(key, value)], n, ",").value == seq(n, i => value);
  }
}
