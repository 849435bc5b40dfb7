/** The older per-folder prompt-list node at the repository root
    (WildPromptor.py, `PromptListNode`). Its menu keys are "{folder} - {name}",
    its sentinels "disabled" and "🎲 Random"; a random pick reads the file
    again on every call, and records are joined with ",". */
module LegacyPromptList {
  import opened Wrappers
  import opened Text
  import opened PyRandom
  import opened Wordlist
  import opened Combine
  import PromptList

  const Disabled: string := "disabled"
  const RandomPick: string := "🎲 Random"

  predicate IsControl(key: string) {
    key == "prompt_count" || key == "seed"
  }

  /** The menu key of a wordlist: "{folder} - {cleaned name}". */
  function DisplayKey(folder: string, name: string): string {
    folder + " - " + name
  }

  /** `key.split(' - ')` unpacks into exactly the folder and the name when
      neither holds " - " and the folder does not end in a space. */
  lemma DisplayKeyRoundTrip(folder: string, name: string)
    requires !Contains(folder + " -", " - ") && !Contains(name, " - ")
    ensures SplitPair(DisplayKey(folder, name), " - ") == Some((folder, name))
  {
    assert " - "[..2] == " -";
    SplitPairAt(folder, " - ", name);
  }

  /** `read_file_lines(filename)`: the stripped non-blank lines of the file in
      the node's folder, `[]` on any reading error. */
  function ReadFileLines(files: map<FilePath, File>, folder: string, fileName: string): (r: seq<string>)
    ensures ReadLines(files, FilePath(folder, fileName)).Ok? ==> r == ReadLines(files, FilePath(folder, fileName)).value
    ensures ReadLines(files, FilePath(folder, fileName)).Raise? ==> r == []
    ensures forall x | x in r :: IsCleanLine(x)
  {
    LinesOrEmpty(files, FilePath(folder, fileName))
  }

  /** One selection in one iteration. A random pick replaces the value by a
      line of the file; the value is then dropped if it is "disabled", so a
      drawn line reading "disabled" adds nothing. */
  function Resolve(folder: string, fileNames: seq<string>, files: map<FilePath, File>, rng: nat -> nat,
                   key: string, value: string, i: nat, k: nat): Step {
    if IsControl(key) then Took(Omit, 0)
    else if value == RandomPick then
      match SplitPair(key, " - ")
      case None => Raised("ValueError")
      case Some((_, cleaned)) =>
        var lines := ReadFileLines(files, folder, OriginalFilename(fileNames, cleaned, false) + ".txt");
        if lines == [] then Took(Omit, 0)
        else
          var drawn := Choice(lines, rng, k);
          Took(if drawn != Disabled then Part(drawn) else Omit, 1)
    else if value != Disabled then Took(Part(value), 0)
    else Took(Omit, 0)
  }

  function NodeResolver(folder: string, fileNames: seq<string>, files: map<FilePath, File>, rng: nat -> nat): Resolver {
    (key: string, value: string, i: nat, k: nat) => Resolve(folder, fileNames, files, rng, key, value, i, k)
  }

  class LegacyPromptListNode {
    /** `FOLDER_NAME`: the data folder the node class was made for. */
    const folder: string
    /** `file_names`: the ".txt" files of the folder, listed once. */
    const fileNames: seq<string>

    constructor(folder: string, listing: seq<string>)
      ensures this.folder == folder && fileNames == PromptList.TxtNames(listing)
    {
      this.folder := folder;
      fileNames := PromptList.TxtNames(listing);
    }

    /** `process_prompt(prompt_count, seed, **kwargs)`. */
    method ProcessPrompt(files: map<FilePath, File>, promptCount: nat, rng: nat -> nat, kwargs: seq<(string, string)>)
      returns (r: Result<seq<string>>)
      ensures r == OrBlank(Batch(NodeResolver(folder, fileNames, files, rng), kwargs, promptCount, ","))
    {
      var batch := CombineBatch(NodeResolver(folder, fileNames, files, rng), kwargs, promptCount, ",");
      r := OrBlank(batch);
    }
  }

  // ------------------------------------------------------------ properties

  /** The lines a "🎲 Random" selection draws from, once its key unpacks. */
  function RandomLines(folder: string, fileNames: seq<string>, files: map<FilePath, File>, key: string): seq<string>
    requires SplitPair(key, " - ").Some?
  {
    ReadFileLines(files, folder, OriginalFilename(fileNames, SplitPair(key, " - ").value.1, false) + ".txt")
  }

  /** Every prompt a single "🎲 Random" selection produces is a line of its
      file; when no line reads "disabled", there is one per iteration. */
  lemma RandomSelection(folder: string, fileNames: seq<string>, files: map<FilePath, File>, rng: nat -> nat, key: string, n: nat)
    requires !IsControl(key) && SplitPair(key, " - ").Some?
    requires RandomLines(folder, fileNames, files, key) != []
    ensures var lines := RandomLines(folder, fileNames, files, key);
      var b := Batch(NodeResolver(folder, fileNames, files, rng), [(key, RandomPick)], n, ",");
      && b.Ok? && (forall x | x in b.value :: x in lines)
      && (Disabled !in lines ==> |b.value| == n)
  {
    var lines := RandomLines(folder, fileNames, files, key);
    var resolve := NodeResolver(folder, fileNames, files, rng);
    SingleDrawnFrom(resolve, (key, RandomPick), n, ",", lines);
    if Disabled !in lines {
      var always := (a: string, b: string) => true;
      assert Steady(resolve, [(key, RandomPick)], always);
      assert AnyContributes([(key, RandomPick)], always) by {
        assert always([(key, RandomPick)][0].0, [(key, RandomPick)][0].1);
      }
      SteadyBatch(resolve, [(key, RandomPick)], always, n, ",");
    }
  }

  /** A "🎲 Random" key that does not split into exactly two pieces at " - "
      makes the call raise ValueError once the batch is not empty. */
  lemma MalformedKeyRaises(folder: string, fileNames: seq<string>, files: map<FilePath, File>, rng: nat -> nat, key: string, n: nat)
    requires !IsControl(key) && SplitPair(key, " - ").None? && n > 0
    ensures OrBlank(Batch(NodeResolver(folder, fileNames, files, rng), [(key, RandomPick)], n, ",")) == Raise("ValueError")
  {
    var resolve := NodeResolver(folder, fileNames, files, rng);
    var kv := (key, RandomPick);
    assert [kv][..0] == [];
    assert Parts(resolve, [kv][..0], 0, 0) == Ok(([], 0));
    assert Records(resolve, [kv], 1, ",").Raise?;
    RecordsRaisePersists(resolve, [kv], 1, n, ",");
  }

  /** Any value other than the two sentinels is appended verbatim in every
      iteration. */
  lemma VerbatimSelection(folder: string, fileNames: seq<string>, files: map<FilePath, File>, rng: nat -> nat,
                          key: string, value: string, n: nat)
    requires !IsControl(key) && value != Disabled && value != RandomPick
    ensures Batch(NodeResolver(folder, fileNames, files, rng), [(key, value)], n, ",") == Ok(seq(n, i => value))
  {
    var resolve := NodeResolver(folder, fileNames, files, rng);
    SingleEveryIteration(resolve, (key, value), n, ",", (i: nat) => value);
    assert Batch(resolve, [(key, value)], n, ",").value == seq(n, i => value);
  }

  /** With only "disabled" selections, control keys, or "🎲 Random" keys of
      empty files, the node returns `[""]`. */
  lemma NothingSelected(folder: string, fileNames: seq<string>, files: map<FilePath, File>, rng: nat -> nat,
                        kwargs: seq<(string, string)>, n: nat)
    requires forall j | 0 <= j < |kwargs| ::
      || IsControl(kwargs[j].0) || kwargs[j].1 == Disabled
      || (kwargs[j].1 == RandomPick && SplitPair(kwargs[j].0, " - ").Some?
          && RandomLines(folder, fileNames, files, kwargs[j].0) == [])
    ensures OrBlank(Batch(NodeResolver(folder, fileNames, files, rng), kwargs, n, ",")) == Ok([""])
  {
    var never := (a: string, b: string) => false;
    SteadyBatch(NodeResolver(folder, fileNames, files, rng), kwargs, never, n, ",");
  }
}
