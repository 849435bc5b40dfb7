# WildPromptor, modelled in Dafny

WildPromptor is a set of ComfyUI nodes that assemble text-to-image prompts.
This project models the parts of it that are deterministic text and list
logic, and the control logic around its external generators.

- **Wordlist parsing and prompt assembly.** These are the prompt-list,
  All-In-One and Generator nodes, in both the current copies under `py/`
  and the older copies at the repository root.
  - A wordlist file is read into stripped non-blank lines.
  - In the current prompt-list node, each line is split into a title and a
    content at its first `" - "`.
  - Menu keys are built and parsed back.
  - For every batch iteration, each selection is resolved to nothing, a
    random pick, an ordered pick, a verbatim value or a title lookup.
  - Non-empty records are joined, with or without the `[""]` fallback.
- **String nodes.**
  - Prompt Concat: strip and filter, de-duplicate, sort with pinned ends,
    join.
  - Prompt Builder: one record per non-blank line.
  - Keyword Picker: ordered or sampled keywords.
- **The list-to-prompt batcher** (`py/WildPromptor_dataToPromptList.py`).
  - The text splitter and the buffer-based path splitter.
  - Reading the data.
  - The selection loop, with its start offset, wrap-around, Reverse and
    Random modes, no-duplicates mode and the `batch_size == 0` sentinel.
- **The LLM output cleaner and prompt template** (`WildPromptorAI.py`).
- **The Ollama text and vision nodes.**
  - The class-level model-list cache and its status machine.
  - `handle_error`.
  - The guards before a generate request.
  - The three-attempt, timeout-only retry loop and truncation.
  - The vision payload fields.
- **The prompt enhancer** (`AI/WildPromptor_Enhancer.py`): its blank-prompt
  guard, its per-item seed schedule and how it returns its outputs.

The world outside these nodes is passed in as values:
- A file system is a map from paths to file contents, which may be
  unreadable or not valid UTF-8.
- A directory listing is a map from folder names to the names listed.
- Python's `random` is a stream of draws `rng: nat -> nat` read from a
  counter. `random.choice` and `random.shuffle` follow CPython's algorithms
  over that stream; `random.sample` follows CPython's pool algorithm (see
  "Left out" for the branch it does not model).
- The clock is a `real` parameter, and each `time.sleep` is a counted event.
- An HTTP exchange is an oracle:
  - whether the server answers (`up`);
  - what `/api/tags` lists (`Tags`);
  - how each POST ends (`post: nat -> Attempt`).
- The image encoder and the text-to-text pipeline are oracles
  (`encode`, `pipe`).
- The URL and default model from the configuration file are parameters.

One Dafny module per source file:

| module | models |
|---|---|
| `Wrappers`, `Text`, `PyList`, `PyRandom` | `Option`/`Result`; Python `str` operations (strip, split, join, find, splitlines, str(int)); `dict.fromkeys` and `sort`; `random.choice`, `random.sample`, `random.shuffle` |
| `Wordlist` | reading wordlist files, title/content parsing, file-name lookup, the per-node file cache |
| `Combine` | the nested batch loops every prompt-list node runs, parametrised by the resolution of one selection |
| `PromptList`, `Generator`, `AllInOne` | `py/WildPromptor.py`, `py/WildPromptor_Generator.py`, `py/WildPromptor_AllInOne.py` |
| `LegacyPromptList`, `LegacyGenerator`, `LegacyAllInOne` | `WildPromptor.py`, `WildPromptorGenerator.py`, `WildPromptorAllInOne.py` |
| `PromptTools`, `LegacyPromptTools` | the string nodes of `py/WildPromptor.py` and of `WildPromptor.py` |
| `DataToPromptList` | `py/WildPromptor_dataToPromptList.py` |
| `PromptAI`, `Ollama`, `OllamaVision`, `Enhancer` | `WildPromptorAI.py`, `WildPromptorOllama.py`, `WildPromptorOllamaVision.py`, `AI/WildPromptor_Enhancer.py` |

Where a node updates state in place, the model is imperative:
- The Ollama model caches are a class with `modifies` clauses.
- The Generator nodes keep their `file_cache` in a class.
- The selection, path and retry loops are `while`/`for` loops with
  invariants.
- `random.shuffle` runs in place on an array.

Each such method is proved against a function that specifies it, and the
properties are proved as lemmas about those functions.

## Model

| member | source | states |
|---|---|---|
| Text.TrimStart | py/WildPromptor.py:46 | the result is a suffix of the input that starts with a kept character; `TrimStartDrops` shows every dropped character is one to drop |
| Text.TrimStartDrops | py/WildPromptor.py:46 | every character `lstrip` removes is one of the characters to strip |
| Text.TrimEnd | py/WildPromptor.py:46 | the result is a prefix that ends in a kept character, and every character after it is one to strip |
| Text.Trim | py/WildPromptor.py:46 | `strip`: a slice of the input whose two end characters are kept and outside which every character is one to strip |
| Text.StripEmptyIffBlank | py/WildPromptor.py:46 | `line.strip()` is empty exactly when the line is all whitespace, the test `if line.strip()` relies on |
| Text.FindFrom | py/WildPromptor.py:50-51 | the first occurrence at or after a position, and no occurrence when it answers none |
| Text.FindLastFrom | py/WildPromptor_Generator.py:102 | the last occurrence at or before a position (`rsplit`), and none when it answers none |
| Text.OccursInSlice | py/WildPromptor.py:50-51 | an occurrence inside a slice is one in the whole string |
| Text.NoOccurrenceAppended | py/WildPromptor_Generator.py:37 | appending characters that cannot end the separator creates no occurrence of it |
| Text.NoOccurrencePrepended | py/WildPromptor_Generator.py:37 | prepending characters that cannot start the separator creates no occurrence of it |
| Text.FindFirstAt | py/WildPromptor_Generator.py:37 | in `a + t + b` the first `t` is the glued one when `a` cannot complete one |
| Text.FindLastAt | py/WildPromptor_Generator.py:102 | in `a + t + b` the last `t` is the glued one when nothing after it holds one |
| Text.Split | py/WildPromptor.py:217 | `str.split(sep)` yields at least one piece |
| Text.FindFromPrefix | py/WildPromptor.py:51 | appending text keeps the first occurrence already found |
| Text.SplitAroundFirst | py/WildPromptor.py:249 | the first piece of `a + sep + b` is `a` when `a` holds no separator |
| Text.SplitAroundLater | py/WildPromptor.py:249 | a separator inside `a` is still the first one in `a + sep + b` |
| Text.SplitAround | py/WildPromptor.py:249 | splitting `a + ", " + b` on ", " gives the pieces of `a` followed by those of `b` |
| Text.TrimKeeps | py/WildPromptor.py:218 | stripping a string that neither starts nor ends with a stripped character changes nothing |
| Text.SplitPairAt | WildPromptor.py:67 | `a, b = (a + sep + b).split(sep)` unpacks into exactly `a` and `b` when the separator occurs only between them |
| Text.SplitJoin | py/WildPromptor.py:214-217 | split and join with the same separator are inverse |
| Text.SplitPiecesFree | py/WildPromptor_dataToPromptList.py:40 | no piece of a split holds the separator |
| Text.IndexWhere | py/WildPromptor_dataToPromptList.py:35 | the first index at or after a start whose character satisfies the test, with none before it |
| Text.AfterBreak | py/WildPromptor_dataToPromptList.py:35 | the next line starts after the boundary, a "\r\n" pair counting once |
| Text.FirstLineSingle | py/WildPromptor_dataToPromptList.py:35 | what precedes the first line boundary holds none |
| Text.SplitLinesNoBreak | py/WildPromptor_dataToPromptList.py:35 | no line `splitlines` yields holds a line boundary |
| Text.WordsHaveNoSpace | WildPromptorAI.py:28 | every word of `text.split()` is non-empty and holds no whitespace |
| Text.NatToString | WildPromptorOllamaVision.py:126 | `str(n)` is a non-empty string of decimal digits |
| Text.NatToStringValue | WildPromptorOllamaVision.py:126 | `int(str(n)) == n` |
| PyList.DedupSpec | py/WildPromptor.py:179-180 | `list(dict.fromkeys(parts))` keeps every value, invents none and repeats none |
| PyList.DedupOfDistinct | py/WildPromptor.py:179-180 | a list without repeats is left unchanged |
| PyList.StrLeTotal | py/WildPromptor.py:184 | Python's string order is total |
| PyList.StrLeTransitive | py/WildPromptor.py:184 | Python's string order is transitive |
| PyList.InsertPermutes | py/WildPromptor.py:184 | insertion adds exactly the inserted element |
| PyList.SortedCons | py/WildPromptor.py:184 | a lower bound in front of a sorted list keeps it sorted |
| PyList.InsertBelow | py/WildPromptor.py:184 | a bound below every element stays below after an insertion |
| PyList.InsertSorted | py/WildPromptor.py:184 | inserting into a sorted list keeps it sorted |
| PyList.SortSpec | py/WildPromptor.py:184 | `middle_parts.sort()` yields an ordered permutation |
| PyRandom.Choice | py/WildPromptor.py:96 | `random.choice` returns an element of the non-empty list |
| PyRandom.Refill | py/WildPromptor.py:259 | the sampling pool shrinks by one slot |
| PyRandom.SampleFrom | py/WildPromptor.py:259 | the pool algorithm picks one entry per draw |
| PyRandom.Range | py/WildPromptor.py:259 | the initial pool is the positions in order |
| PyRandom.RefillRemoves | py/WildPromptor.py:259 | refilling a pool of distinct positions removes exactly the picked one |
| PyRandom.SampleFromDistinct | py/WildPromptor.py:259 | the pool algorithm picks distinct entries of the pool |
| PyRandom.SamplePositionsValid | py/WildPromptor.py:259 | `random.sample(xs, k)` takes `k` distinct positions of `xs` |
| PyRandom.Sample | py/WildPromptor.py:259 | a sample has exactly `k` elements |
| PyRandom.SampleAtDistinctPositions | py/WildPromptor.py:259 | every sampled element is read at its own distinct position |
| PyRandom.SampleOneIsChoice | py/WildPromptor_Generator.py:108-111 | `random.sample(options, 1)[0]` uses the same draw as `random.choice(options)` and picks the same element |
| PyRandom.Swap | py/WildPromptor_dataToPromptList.py:103 | a swap keeps the length |
| PyRandom.SwapPermutes | py/WildPromptor_dataToPromptList.py:103 | a swap only permutes |
| PyRandom.ShuffleFrom | py/WildPromptor_dataToPromptList.py:103 | the remaining shuffle steps keep the length |
| PyRandom.ShuffleFromPermutes | py/WildPromptor_dataToPromptList.py:103 | shuffling only permutes |
| PyRandom.ShuffledPermutes | py/WildPromptor_dataToPromptList.py:103 | `random.shuffle(data)` leaves a permutation of the data |
| PyRandom.Shuffle | py/WildPromptor_dataToPromptList.py:103 | the in-place loop leaves the array holding `Shuffled` of its old contents |
| Wordlist.ListDir | py/WildPromptor_Generator.py:134 | `os.listdir` succeeds exactly for an existing folder |
| Wordlist.TranslateNewlines | py/WildPromptor.py:45-46 | text-mode reading leaves no "\r" |
| Wordlist.KeepNonEmpty | py/WildPromptor.py:46 | the filtered list is no longer than its input |
| Wordlist.KeepNonEmptyFixed | py/WildPromptor.py:46 | lines that are non-empty and already stripped are all kept, unchanged |
| Wordlist.KeepNonEmptyAppend | py/WildPromptor.py:46 | filtering a concatenation filters each part |
| Wordlist.KeepNonEmptyFrom | py/WildPromptor.py:46 | every kept string is the non-empty image of some input line |
| Wordlist.KeepNonEmptyAll | py/WildPromptor.py:46 | every non-empty image is kept |
| Wordlist.StripNonBlank | py/WildPromptor.py:46 | `[line.strip() for line in lines if line.strip()]` is no longer than its input |
| Wordlist.StripNonBlankAppend | py/WildPromptor.py:46 | filtering a concatenation of line lists filters each |
| Wordlist.CleanStrips | py/WildPromptor.py:46 | a clean line strips to itself |
| Wordlist.StripNonBlankKept | py/WildPromptor.py:46 | every kept line is non-empty, has no outer whitespace and is the stripped form of an input line |
| Wordlist.StripNonBlankKeepsAll | py/WildPromptor.py:46 | every non-blank input line is kept, stripped |
| Wordlist.ReadLines | py/WildPromptor_Generator.py:143-144 | reading succeeds exactly for an existing, readable file, and every line read is clean |
| Wordlist.LinesOrEmpty | py/WildPromptor_Generator.py:142-152 | the lines of a readable file, and `[]` for a missing or unreadable one |
| Wordlist.ParseLineRoundTrip | py/WildPromptor.py:50-56 | `title + " - " + content` gives the line back and the title holds no " - "; a line without " - " is both title and content |
| Wordlist.ParseLines | py/WildPromptor.py:49-56 | titles and contents run parallel to the lines, each pair the parse of its line |
| Wordlist.ParsedFileSpec | py/WildPromptor.py:42-63 | an unreadable file gives `([], [])`; otherwise titles and contents have the length of the stripped non-blank lines and hold their parses |
| Wordlist.ReadFileLines | py/WildPromptor.py:42-63 | the reading method returns what `ParsedFile` describes |
| Wordlist.ParseEach | py/WildPromptor.py:49-57 | the append loop builds the parallel title and content lists |
| Wordlist.Stem | py/WildPromptor.py:121 | `os.path.splitext(name)[0]` is a prefix of the name |
| Wordlist.StemOfTxt | py/WildPromptor.py:94 | the stem of a ".txt" file with ".txt" appended is the file name again |
| Wordlist.FirstMatch | py/WildPromptor.py:118-122 | the first listed name that matches, and none when no name matches |
| Wordlist.OriginalFilenameFirstMatch | py/WildPromptor.py:118-122 | `get_original_filename` is the stem of the first matching file, or the cleaned name when none matches |
| Wordlist.FileCache.constructor | py/WildPromptor_Generator.py:74 | the cache starts empty |
| Wordlist.FileCache.ReadFileOptions | py/WildPromptor_Generator.py:139-152 | a cached path answers from the cache and changes nothing; a readable file is read and cached; a failure answers `[]` and caches nothing |
| Combine.Parts | py/WildPromptor.py:87-112 | the parts of one record, resolving the selections in order and counting draws; `CombineParts` is proved to compute it |
| Combine.Records | py/WildPromptor.py:86-114 | the records of the first `n` iterations; `SteadyRecords` and `SingleRecords` state its properties |
| Combine.Batch | py/WildPromptor.py:84-114 | the list a batch produces before any fallback; `CombineBatch` is proved to compute it, `SteadyBatch` and `SingleEveryIteration` state its properties |
| Combine.PartsRaisePersists | py/WildPromptor.py:88-112 | an exception in a selection ends the iteration with that exception |
| Combine.RecordsRaisePersists | py/WildPromptor.py:86-114 | an exception in an iteration is the exception of the whole batch |
| Combine.CombineBatch | py/WildPromptor.py:84-114 | the nested append loops return the batch `Batch` describes |
| Combine.CombineParts | py/WildPromptor.py:87-112 | the inner loop returns the parts and draw count `Parts` describes |
| Combine.DropFilters | py/WildPromptor_Generator.py:58-62 | the comprehension removes exactly the entries with the dropped value and keeps the others unchanged and in order |
| Combine.DropSound | py/WildPromptor_Generator.py:59 | no kept entry has the dropped value |
| Combine.DropKeeps | py/WildPromptor_Generator.py:59 | every other entry is kept |
| Combine.DropNothing | py/WildPromptor_Generator.py:59 | without the dropped value the selections are passed on unchanged |
| Combine.OrBlank | py/WildPromptor.py:116 | an empty batch becomes `[""]`, any other is returned unchanged |
| Combine.SteadyParts | py/WildPromptor.py:88-113 | when contribution does not depend on the iteration, every iteration yields a record exactly when some selection contributes |
| Combine.SteadyBatch | py/WildPromptor.py:111-116 | a steady batch has exactly `n` records or none |
| Combine.SteadyPartCount | py/WildPromptor.py:88-112 | when contribution does not depend on the iteration, every iteration has exactly one part per contributing selection |
| Combine.SteadyRecordShape | py/WildPromptor.py:86-114 | a steady batch from any iteration on has only records that join exactly one part per contributing selection |
| Combine.SteadyBatchShape | py/WildPromptor.py:84-116 | a steady batch has `n` records or none, and every record joins exactly one part per contributing selection |
| Combine.SteadyRecords | py/WildPromptor.py:86-114 | a steady batch from iteration `i` on has one record per remaining iteration or none |
| Combine.SingleEveryIteration | py/WildPromptor.py:86-114 | a single selection yielding `f(i)` in iteration `i` gives exactly the records `f(0), ..., f(n - 1)` |
| Combine.SingleRecords | py/WildPromptor.py:86-114 | the same from any starting iteration and draw count |
| Combine.SingleDrawnFrom | py/WildPromptor.py:91-96 | a single selection that always draws from a pool gives records that are all members of the pool |
| Combine.SingleDrawnRecords | py/WildPromptor.py:91-96 | the same from any starting iteration and draw count |
| Combine.CachedStep | py/WildPromptor_Generator.py:101-122 | resolving one selection through the cache gives the step the cache's view at the call describes, and the view does not change |
| Combine.CachedParts | py/WildPromptor_Generator.py:99-122 | one iteration through the cache gives the parts that view describes, and every later read answers as before |
| Combine.CachedCombineBatch | py/WildPromptor_Generator.py:98-125 | the whole batch through the cache is the batch the view at the call describes; the cache keeps agreeing with the files |
| PromptList.Resolve | py/WildPromptor.py:88-112 | one selection in one iteration: random, ordered, title lookup or the value itself, then the sentinel test; `OrderedSelection`, `RandomSelection` and `ExplicitValue` state its properties |
| PromptList.TxtNames | py/WildPromptor.py:27-28 | keeps exactly the listed names ending in ".txt" |
| PromptList.DisplayKeyRoundTrip | py/WildPromptor.py:70-92 | `key.split(' [')[0]` of the menu key `"{cleaned} [{count}]"` is the cleaned name whenever it holds no " [" |
| PromptList.IndexOf | py/WildPromptor.py:108-109 | `titles.index(value)` is the first position holding the value |
| PromptList.Emit | py/WildPromptor.py:111-112 | a value is appended exactly when it is none of the three menu entries, and then verbatim |
| PromptList.LoadedStep | py/WildPromptor.py:36-40 | loading one more file keeps the files loaded so far |
| PromptList.LoadFiles | py/WildPromptor.py:36-40 | every listed file is loaded through `read_file_lines` |
| PromptList.PromptListNode.constructor | py/WildPromptor.py:30-34 | the node holds the folder's ".txt" names and their parsed contents |
| PromptList.PromptListNode.ProcessPrompt | py/WildPromptor.py:82-116 | records joined with ", ", non-empty iterations only, `[""]` when none; a key naming no loaded file raises KeyError |
| PromptList.OrderedSelection | py/WildPromptor.py:97-103 | "🔢ordered" on a non-empty file yields `contents[i % len(contents)]` in every iteration `i` |
| PromptList.RandomSelection | py/WildPromptor.py:91-96 | "🎲Random" on a non-empty file yields one of its contents in every iteration |
| PromptList.ExplicitValue | py/WildPromptor.py:104-110 | a value equal to a title becomes the content at the first such title; any other value is passed through verbatim |
| PromptList.AllOrBlank | py/WildPromptor.py:111-116 | when no content equals a menu entry, the node returns exactly `batch_size` prompts, or `[""]` when nothing contributes |
| Generator.NeedOf | py/WildPromptor_Generator.py:101-116 | the file a "🎲Random" or "🔢ordered" selection reads, or the exception finding it raises; `ResolverReads` connects it to the cache |
| Generator.PickOf | py/WildPromptor_Generator.py:101-122 | the loop body once the options are known; `RandomPickIsMember`, `OrderedSelection` and `VerbatimSelection` state its properties |
| Generator.SelectOptions | py/WildPromptor_Generator.py:58-62 | `select_options` removes exactly the "❌disabled" entries and leaves the others unchanged and in order |
| Generator.DisplayKeyRoundTrip | py/WildPromptor_Generator.py:37-103 | `rsplit(' - ', 1)` and `split(' [')[0]` of `"{folder} - {name} [{count}]"` recover the folder and name |
| Generator.WildPromptorGenerator.constructor | py/WildPromptor_Generator.py:71-74 | the node starts with an empty file cache |
| Generator.WildPromptorGenerator.ProcessPrompt | py/WildPromptor_Generator.py:94-130 | records joined with ", " with no `[""]` fallback, reading files through the cache, which keeps answering as before |
| Generator.RandomPickIsMember | py/WildPromptor_Generator.py:107-111 | both `allow_duplicates` branches make one draw and pick the same member of the options |
| Generator.OrderedSelection | py/WildPromptor_Generator.py:112-120 | "🔢ordered" on non-empty options yields `options[i % len(options)]` in iteration `i` |
| Generator.ResolverReads | py/WildPromptor_Generator.py:101-120 | a random or ordered selection resolves against the options the cache answers for its file |
| Generator.RandomSelection | py/WildPromptor_Generator.py:101-111 | "🎲Random" yields a member of the file's options in every iteration, whichever `allow_duplicates` is |
| Generator.VerbatimSelection | py/WildPromptor_Generator.py:121-122 | any other value except "❌disabled" is appended verbatim in every iteration |
| Generator.NothingSelected | py/WildPromptor_Generator.py:124-130 | with nothing contributing the result is `[]`, not `[""]` |
| AllInOne.Resolve | py/WildPromptor_AllInOne.py:59-73 | one selection in one iteration: only a "🎲Random" value on a non-control key contributes, drawing from the file's lines; `RandomDraw`, `UnreadableRaises` and `OnlyRandomContributes` state its properties |
| AllInOne.DisplayKeyRoundTrip | py/WildPromptor_AllInOne.py:48-66 | `split(' - ', 1)` and the " [" cut recover folder and name from the menu key |
| AllInOne.ProcessPrompt | py/WildPromptor_AllInOne.py:53-81 | records joined with ",", `[""]` when there are none |
| AllInOne.RandomDraw | py/WildPromptor_AllInOne.py:64-73 | a "🎲Random" key with a non-empty file yields the drawn option, whichever `allow_duplicates` is |
| AllInOne.RandomSelection | py/WildPromptor_AllInOne.py:57-81 | a single "🎲Random" selection gives `batch_size` prompts, each one of the file's stripped non-blank lines |
| AllInOne.RecordParts | py/WildPromptor_AllInOne.py:57-81 | when every "🎲Random" key's file can be found and read, the node returns `batch_size` prompts, each joining with "," one drawn option per "🎲Random" key with a non-empty file, or `[""]` when there is no such key |
| AllInOne.UnreadableRaises | py/WildPromptor_AllInOne.py:22-24 | a file that cannot be read makes the whole call raise, because `read_file_options` catches nothing |
| AllInOne.OnlyRandomContributes | py/WildPromptor_AllInOne.py:59-81 | "🔢ordered" and hand-picked values add nothing: with no random selection the result is `[""]` |
| LegacyPromptList.Resolve | WildPromptor.py:63-75 | one selection in one iteration: a random pick draws a line, and the value is then dropped if it reads "disabled"; `RandomSelection`, `MalformedKeyRaises` and `VerbatimSelection` state its properties |
| LegacyPromptList.DisplayKeyRoundTrip | WildPromptor.py:49-67 | `key.split(' - ')` unpacks the key `"{folder} - {name}"` into exactly folder and name |
| LegacyPromptList.ReadFileLines | WildPromptor.py:30-40 | the stripped non-blank lines of the file, or `[]` on any reading error |
| LegacyPromptList.LegacyPromptListNode.constructor | WildPromptor.py:22-25 | the node holds its folder's ".txt" names |
| LegacyPromptList.LegacyPromptListNode.ProcessPrompt | WildPromptor.py:57-79 | records joined with ",", `[""]` when there are none |
| LegacyPromptList.RandomSelection | WildPromptor.py:66-75 | every prompt of a single "🎲 Random" selection is a line of its file, one per iteration when no line reads "disabled" |
| LegacyPromptList.MalformedKeyRaises | WildPromptor.py:67 | a key that does not split into exactly two names at " - " raises ValueError |
| LegacyPromptList.VerbatimSelection | WildPromptor.py:74-75 | any value but the two sentinels is appended verbatim |
| LegacyPromptList.NothingSelected | WildPromptor.py:70-79 | only "disabled", control keys or empty files give `[""]` |
| LegacyGenerator.NeedOf | WildPromptorGenerator.py:101-104 | the file a "🎲 Random" selection reads; a key that does not unpack into two names raises ValueError |
| LegacyGenerator.PickOf | WildPromptorGenerator.py:101-112 | the loop body once the options are known; `RandomSelection` and `VerbatimSelection` state its properties |
| LegacyGenerator.SelectOptions | WildPromptorGenerator.py:55-59 | removes exactly the "disabled" entries and keeps the others in order |
| LegacyGenerator.LegacyGeneratorNode.constructor | WildPromptorGenerator.py:68-71 | the node starts with an empty file cache |
| LegacyGenerator.LegacyGeneratorNode.ProcessPrompt | WildPromptorGenerator.py:91-120 | a non-dict selection raises ValueError; otherwise records joined with "," with no fallback, reading through the cache |
| LegacyGenerator.ResolverReads | WildPromptorGenerator.py:101-110 | a random selection resolves against the options the cache answers |
| LegacyGenerator.RandomSelection | WildPromptorGenerator.py:101-110 | "🎲 Random" yields a member of the options in every iteration, whichever `allow_duplicates` is |
| LegacyGenerator.VerbatimSelection | WildPromptorGenerator.py:111-112 | any value but the two sentinels is appended as `str(value)` |
| LegacyGenerator.NothingSelected | WildPromptorGenerator.py:114-120 | without a contributing selection the result is `[]` |
| LegacyAllInOne.Resolve | WildPromptorAllInOne.py:63-76 | one selection in one iteration: "disabled" adds nothing, a random pick draws a line of the file, any other value is kept; `RandomSelection`, `UnreadableIsEmpty` and `VerbatimSelection` state its properties |
| LegacyAllInOne.DisplayKeyRoundTrip | WildPromptorAllInOne.py:69 | `split(' - ', 1)` recovers folder and name whenever the folder holds no " - " |
| LegacyAllInOne.ProcessPrompt | WildPromptorAllInOne.py:57-84 | records joined with ",", `[""]` when there are none |
| LegacyAllInOne.RandomSelection | WildPromptorAllInOne.py:68-74 | a "🎲 Random" selection with a non-empty list yields one of its lines in each prompt |
| LegacyAllInOne.UnreadableIsEmpty | WildPromptorAllInOne.py:46-55 | an unreadable file counts as empty and adds nothing, so a lone selection of it gives `[""]` |
| LegacyAllInOne.VerbatimSelection | WildPromptorAllInOne.py:75-76 | any value but the two sentinels is appended verbatim, one part per such selection in every record |
| LegacyAllInOne.RecordParts | WildPromptorAllInOne.py:61-84 | when every "🎲 Random" key names a folder that can be listed, the node returns `prompt_count` prompts, each joining with "," one part per key holding a non-sentinel value (a "🎲 Random" key only with a non-empty list), or `[""]` when there is no such key |
| PromptTools.Concat | py/WildPromptor.py:173-191 | Prompt Concat's `process_prompt`; `ConcatPartsOrder`, `ConcatAllBlank`, `ConcatDedup` and `ConcatSortPinned` state its properties |
| PromptTools.Build | py/WildPromptor.py:212-220 | Prompt Builder's `process_prompt`; `BuildOutputs`, `RecordsTrimmed` and `RecordIntact` state its properties |
| PromptTools.PickKeywords | py/WildPromptor.py:243-263 | Keyword Picker's `pick_keywords` as written; `PickCount`, `PickedSpec` and `PickKeepsGlue` state its properties |
| PromptTools.PickKeywordsFixed | py/WildPromptor.py:243-249 | the picker glued with ", "; `FixedKeywordsConcatenate` and `FixedEmptyInput` state its properties |
| PromptTools.Separator | py/WildPromptor.py:187 | the separator exists exactly for "comma", "space" and "newline" (any other name raises KeyError) and is ", ", " " or "\n" |
| PromptTools.ConcatPartsOrder | py/WildPromptor.py:174 | kept parts: the stripped prefix, the stripped non-blank category inputs in order, the stripped suffix, blanks dropped; all clean |
| PromptTools.StripNonBlankOne | py/WildPromptor.py:174 | a single input is kept stripped exactly when it is not blank |
| PromptTools.ConcatAllBlank | py/WildPromptor.py:176-177 | all-blank inputs give "" whatever the separator |
| PromptTools.ConcatDedup | py/WildPromptor.py:179-180 | after `remove_duplicates` no part repeats and every value is still present |
| PromptTools.ConcatSortPinned | py/WildPromptor.py:182-185 | a clean prefix and suffix stay first and last, with the category inputs sorted between them, as a permutation of the parts |
| PromptTools.CleanNotBlank | py/WildPromptor.py:174 | a clean line is not blank and strips to itself |
| PromptTools.ConcatSortDropsFirstPart | py/WildPromptor.py:182-185 | as written, sorting with a blank prefix turns ["b", "a"] into ", a", losing "b" |
| PromptTools.SortPinnedDrops | py/WildPromptor.py:183-185 | as written, a blank prefix puts "" in front and drops the first part |
| PromptTools.TwoCleanKept | py/WildPromptor.py:174 | two clean inputs are kept unchanged |
| PromptTools.TwoCleanParts | py/WildPromptor.py:174 | with a blank prefix and suffix, two clean inputs are the parts |
| PromptTools.PinnedSort | py/WildPromptor.py:182-185 | the intended sort keeps the number of parts |
| PromptTools.PinnedSortPermutes | py/WildPromptor.py:182-185 | the intended sort only permutes |
| PromptTools.PinnedSortEnds | py/WildPromptor.py:182-185 | the intended sort keeps the pinned first and last parts and orders what lies between |
| PromptTools.Pinned | py/WildPromptor.py:185 | replacing the middle keeps the pinned ends |
| PromptTools.ConcatFixedKeepsParts | py/WildPromptor.py:182-185 | the intended sort keeps every kept part, the stripped prefix first and the stripped suffix last |
| PromptTools.ConcatFixedAgrees | py/WildPromptor.py:173-191 | where the written sort is right, the intended one gives the same prompt |
| PromptTools.ArrangedFixedAgrees | py/WildPromptor.py:182-185 | the same, for the arranged list of parts |
| PromptTools.NonBlank | py/WildPromptor.py:218 | every kept line is an input line and not blank |
| PromptTools.MapNonBlankSpec | py/WildPromptor.py:218 | one result per non-blank line, in order |
| PromptTools.BuildRecordsSpec | py/WildPromptor.py:218 | one record per non-blank line, each `f"{prefix}, {line}, {suffix}".strip(', ')` |
| PromptTools.BuildOutputs | py/WildPromptor.py:212-220 | one record per non-blank line or `[""]`, and `content_only` is the content, a list joined by "\n" |
| PromptTools.RecordsTrimmed | py/WildPromptor.py:218 | no record starts or ends with a comma or a space |
| PromptTools.RecordIntact | py/WildPromptor.py:218 | with a prefix and suffix that have no stripped character at their outer ends, the record is the template verbatim |
| PromptTools.KeywordList | py/WildPromptor.py:249 | every keyword is non-empty with no outer whitespace |
| PromptTools.PickedSpec | py/WildPromptor.py:257-261 | ordered mode takes `list[:count]`; random mode takes `count` keywords at distinct positions |
| PromptTools.PickCount | py/WildPromptor.py:254-263 | `pick_count <= 0` gives ""; otherwise `min(pick_count, n)` keywords are picked |
| PromptTools.PickKeepsGlue | py/WildPromptor.py:244-249 | as written, an empty `input_keywords` leaves "," on the first keyword: "a, b" ordered, one keyword, gives ",a" |
| PromptTools.EmptyInputGlued | py/WildPromptor.py:244-249 | as written, an empty `input_keywords` makes the picker work on "," + keywords |
| PromptTools.GluedSplit | py/WildPromptor.py:249 | ",a, b" splits on ", " into ",a" and "b" |
| PromptTools.GluedKeywords | py/WildPromptor.py:249 | the keywords of ",a, b" are ",a" and "b" |
| PromptTools.FixedKeywordsConcatenate | py/WildPromptor.py:244-249 | glued with ", ", the keyword list is the input's keywords followed by the text field's |
| PromptTools.FixedEmptyInput | py/WildPromptor.py:244-263 | with an empty input the intended picker picks from the text field's keywords alone |
| LegacyPromptTools.LegacyConcat | WildPromptor.py:118-146 | the older Prompt Concat; `ProcessConcat` computes it and `LegacyConcatEmpty` and `LegacyPartsTwice` state its properties |
| LegacyPromptTools.LegacyBuild | WildPromptor.py:166-171 | the older Prompt Builder; `LegacyBuildOutputs` states its properties |
| LegacyPromptTools.LegacyPick | WildPromptor.py:191-208 | the older Keyword Picker; `LegacyPickModes` and `CommaKeywordsClean` state its properties |
| LegacyPromptTools.Truthy | WildPromptor.py:119 | the kept inputs are the non-empty ones, unstripped |
| LegacyPromptTools.ProcessConcat | WildPromptor.py:118-146 | the extend/append/de-dup/sort/join steps give `LegacyConcat` |
| LegacyPromptTools.LegacyConcatEmpty | WildPromptor.py:119-121 | "" exactly when every input is empty |
| LegacyPromptTools.TruthyEmpty | WildPromptor.py:119-120 | nothing is kept exactly when every input is empty |
| LegacyPromptTools.LegacyPartsTwice | WildPromptor.py:119-127 | a non-empty single-line category input, and a non-empty suffix, appear at least twice before de-duplication |
| LegacyPromptTools.ExpandedHolds | WildPromptor.py:123-125 | a non-empty single-line category input is among the lines added for it |
| LegacyPromptTools.LegacyBuildOutputs | WildPromptor.py:166-171 | one `"prefix,line,suffix"` record per non-blank line, only commas stripped from the ends, or `[""]` |
| LegacyPromptTools.Prefix | WildPromptor.py:206 | Python's `xs[:n]`, including a negative `n` |
| LegacyPromptTools.CommaKeywordsClean | WildPromptor.py:197 | no keyword is blank, has outer whitespace or holds a comma |
| LegacyPromptTools.NoCommaInStrip | WildPromptor.py:197 | stripping a piece without commas leaves none |
| LegacyPromptTools.NoCommaChars | WildPromptor.py:197 | a string in which "," does not occur holds no ',' |
| LegacyPromptTools.LegacyPickModes | WildPromptor.py:191-208 | Sequential takes the first `pick_count` keywords (a negative count slices from the end); Random raises for a negative count and otherwise picks `min(pick_count, n)` distinct positions |
| DataToPromptList.SplitAndClean | py/WildPromptor_dataToPromptList.py:31-41 | `_split_and_clean`: cleaned lines for an empty separator, stripped non-blank pieces otherwise; `LineSegments`, `SeparatorSegments` and `SegmentsClean` state its properties |
| DataToPromptList.StripKeepsNoBreak | py/WildPromptor_dataToPromptList.py:36 | stripping a line without breaks leaves none |
| DataToPromptList.CleanOne | py/WildPromptor_dataToPromptList.py:36-37 | a cleaned line is empty, or clean and without line breaks |
| DataToPromptList.CleanLinesClean | py/WildPromptor_dataToPromptList.py:35-38 | every segment is non-empty, has no outer whitespace and no line break |
| DataToPromptList.LineSegments | py/WildPromptor_dataToPromptList.py:33-38 | with an empty separator: one clean single-line segment for every line that keeps something after trailing commas and whitespace go |
| DataToPromptList.SeparatorSegments | py/WildPromptor_dataToPromptList.py:39-41 | with a separator: the stripped non-blank pieces, in order, of a split that joins back to the text and whose pieces hold no separator |
| DataToPromptList.PathPieces | py/WildPromptor_dataToPromptList.py:45 | the non-empty pieces of `re.split(r'\s*[,\|\n]\s*', path.strip())`, stripped |
| DataToPromptList.Group | py/WildPromptor_dataToPromptList.py:46-59 | the buffer loop of `_process_file_paths` as a recursion; `GroupFlatten`, `GroupClean` and `GroupEmits` state its properties and `ProcessFilePaths` is proved to compute it |
| DataToPromptList.SplitWhere | py/WildPromptor_dataToPromptList.py:45 | splitting at delimiter characters yields at least one piece |
| DataToPromptList.CleanPiecesTail | py/WildPromptor_dataToPromptList.py:45 | the tail of a clean piece list is clean |
| DataToPromptList.StripEachClean | py/WildPromptor_dataToPromptList.py:45 | stripped pieces are empty or clean |
| DataToPromptList.CleanAppend | py/WildPromptor_dataToPromptList.py:51 | appending a clean piece to an empty or clean buffer keeps it clean |
| DataToPromptList.GroupFlatten | py/WildPromptor_dataToPromptList.py:49-57 | the emitted paths concatenate to the pieces: every piece lands in exactly one path, in order |
| DataToPromptList.GroupClean | py/WildPromptor_dataToPromptList.py:53-57 | every emitted path is non-empty with no outer whitespace |
| DataToPromptList.AllButLastCons | py/WildPromptor_dataToPromptList.py:52-57 | putting a complete path in front keeps all but the last complete |
| DataToPromptList.GroupEmits | py/WildPromptor_dataToPromptList.py:52-57 | every path but the last had more than one '.' or ended in ".txt"/".csv" |
| DataToPromptList.ProcessFilePaths | py/WildPromptor_dataToPromptList.py:43-59 | the buffer loop returns the paths `Group` describes |
| DataToPromptList.FilePaths | py/WildPromptor_dataToPromptList.py:43-59 | the paths are clean, concatenate to the pieces, and each but the last is complete |
| DataToPromptList.FileOwn | py/WildPromptor_dataToPromptList.py:71-77 | one pass of the file loop: an empty path adds nothing, a missing file and another `OSError` are caught, a decoding error escapes, a readable file's text is newline-translated and split; `FileDataRaises` and `FileDataNoCarriageReturn` state its properties |
| DataToPromptList.FileData | py/WildPromptor_dataToPromptList.py:70-77 | the whole file loop, stopping at the first exception; `ReadFiles` is proved to compute it |
| DataToPromptList.Data | py/WildPromptor_dataToPromptList.py:61-79 | `_read_data`: the text's segments, then the files'; `ReadData` is proved to compute it and `DataClean` states what it holds |
| DataToPromptList.ReadStep | py/WildPromptor_dataToPromptList.py:71-77 | one pass of the file loop either ends it with the file's exception or moves the file's segments into `data` |
| DataToPromptList.ReadData | py/WildPromptor_dataToPromptList.py:61-79 | `_read_data` returns the text's segments and then each readable file's, or the decoding error that escapes the file loop |
| DataToPromptList.ReadFiles | py/WildPromptor_dataToPromptList.py:70-77 | each readable file's segments are added, read with universal newlines; a missing file or another `OSError` is skipped; a decoding error ends the loop and escapes |
| DataToPromptList.SegmentsClean | py/WildPromptor_dataToPromptList.py:31-41 | every segment is clean, whatever the separator |
| DataToPromptList.FileDataClean | py/WildPromptor_dataToPromptList.py:70-77 | when no exception escapes, every segment from files is clean |
| DataToPromptList.DataClean | py/WildPromptor_dataToPromptList.py:61-79 | when no exception escapes, every datum the node can choose is non-empty with no outer whitespace |
| DataToPromptList.FileDataRaises | py/WildPromptor_dataToPromptList.py:73-77 | the file loop raises exactly when some listed file exists but is not valid UTF-8, and then with `UnicodeDecodeError`; missing and unreadable files never make it raise |
| DataToPromptList.SegmentsKeepOut | py/WildPromptor_dataToPromptList.py:31-41 | a line-break character that is not in the text is in no segment, whatever the separator |
| DataToPromptList.FileDataNoCarriageReturn | py/WildPromptor_dataToPromptList.py:74-75 | files are read with universal newlines: no segment from a file holds a carriage return |
| DataToPromptList.Reversed | py/WildPromptor_dataToPromptList.py:100-101 | `data[::-1]` mirrors the indices |
| DataToPromptList.ArrangedPermutes | py/WildPromptor_dataToPromptList.py:100-103 | every mode only reorders: Reverse mirrors, Random permutes, any other mode keeps the order |
| DataToPromptList.ReversedPermutes | py/WildPromptor_dataToPromptList.py:100-101 | reversal is a permutation |
| DataToPromptList.Span | py/WildPromptor_dataToPromptList.py:108 | `list(range(lo, hi))` holds `lo + j` at `j` |
| DataToPromptList.Wrap | py/WildPromptor_dataToPromptList.py:115 | Python's `i % m` is below `m` and is `i` for `i < m` |
| DataToPromptList.CyclesStep | py/WildPromptor_dataToPromptList.py:114-125 | the next prompt of the cycle keeps it a cycle |
| DataToPromptList.CyclesRun | py/WildPromptor_dataToPromptList.py:116-125 | a cycle no longer than `d[start..]` is a run of it |
| DataToPromptList.GeneratePrompts | py/WildPromptor_dataToPromptList.py:81-128 | an exception escaping `_read_data` escapes the node; otherwise no data gives the "No data available" pair, and any data the prompts `Chosen` describes, joined with "\n\n" |
| DataToPromptList.SelectPrompts | py/WildPromptor_dataToPromptList.py:89-128 | `batch_size == 0` means all; mode, then selection from `count_start_from - 1` |
| DataToPromptList.Arrange | py/WildPromptor_dataToPromptList.py:100-103 | the data as the mode arranges it, shuffled in place for Random |
| DataToPromptList.PickedAtExit | py/WildPromptor_dataToPromptList.py:110-125 | when the loop stops, its prompts are those `PickedFrom` describes |
| DataToPromptList.PickFrom | py/WildPromptor_dataToPromptList.py:106-125 | past the end: nothing; duplicates allowed: `batch` prompts, prompt `j` being `d[start + j % (n - start)]`; otherwise the run `d[start..]` cut to `batch`, the inner `while True` exiting at once |
| PromptAI.CleanPrompt | WildPromptorAI.py:24-32 | `clean_prompt`, the six steps in order; `CleanPromptTidy` states its property |
| PromptAI.FormatPrompt | WildPromptorAI.py:34-35 | `format_prompt`; `FormatPromptRoundTrip` reads the keywords back from it |
| PromptAI.DropLabelLines | WildPromptorAI.py:25 | removing label lines never lengthens the text |
| PromptAI.NoLabelEndConcat | WildPromptorAI.py:25 | joining label-free texts at a line boundary stays label-free |
| PromptAI.KeptLineClean | WildPromptorAI.py:25 | a kept line with its newline has no label end |
| PromptAI.DropLabelLinesClean | WildPromptorAI.py:25 | afterwards no line ends with ':' |
| PromptAI.DropLabelLinesKeeps | WildPromptorAI.py:25 | text without label lines is left unchanged |
| PromptAI.DropLabelLinesIdempotent | WildPromptorAI.py:25 | removing label lines twice removes nothing more |
| PromptAI.FinalLineKept | WildPromptorAI.py:25 | the final line, which has no newline, always survives |
| PromptAI.RemoveStars | WildPromptorAI.py:26 | removing '*' never lengthens the text |
| PromptAI.RemoveStarsSpec | WildPromptorAI.py:26 | no '*' is left, and text without '*' is unchanged |
| PromptAI.CollapseSpace | WildPromptorAI.py:27 | collapsing never lengthens the text |
| PromptAI.CollapseHead | WildPromptorAI.py:27 | a first non-space character is kept |
| PromptAI.SingleSpacedCons | WildPromptorAI.py:27 | a non-space in front keeps text single-spaced |
| PromptAI.CollapseSpaceSingle | WildPromptorAI.py:27 | afterwards the only whitespace is single ' ' |
| PromptAI.WordJoinStep | WildPromptorAI.py:28 | adding a word keeps the join tidy |
| PromptAI.JoinWordsTidy | WildPromptorAI.py:28 | words joined by ' ' are single-spaced with nothing at the ends |
| PromptAI.RejoinTidy | WildPromptorAI.py:28 | `' '.join(text.split())` is single-spaced with no whitespace at either end |
| PromptAI.RemoveFrom | WildPromptorAI.py:31 | phrase removal never lengthens the text |
| PromptAI.RemoveFromChars | WildPromptorAI.py:31 | removal only drops characters: a property of every character carries over |
| PromptAI.RemoveFromNoMatch | WildPromptorAI.py:31 | without a match the text is unchanged |
| PromptAI.MatchNeedsWordAfter | WildPromptorAI.py:29-31 | "Image Description:" matches only where a word character follows, because of `\b` |
| PromptAI.PhraseGapKept | WildPromptorAI.py:27-31 | removing "style" from "a style b" leaves "a  b": the spaces are not collapsed again |
| PromptAI.RemovePhrasesChars | WildPromptorAI.py:29-31 | the phrase loop keeps a property of every character |
| PromptAI.StripKeepsChars | WildPromptorAI.py:32 | the final strip keeps a property of every character and leaves no outer whitespace |
| PromptAI.TrimKeepsChars | WildPromptorAI.py:32 | the same, for any stripped character set |
| PromptAI.AllCharsSlice | WildPromptorAI.py:32 | a slice keeps a property of every character |
| PromptAI.RejoinClean | WildPromptorAI.py:28 | rejoined text keeps the absence of '*' and has only ' ' as whitespace |
| PromptAI.WordsFromText | WildPromptorAI.py:28 | every word is made of characters of the text |
| PromptAI.WordsCons | WildPromptorAI.py:28 | the words are the first word followed by the rest |
| PromptAI.JoinKeepsChars | WildPromptorAI.py:28 | joining keeps a property that the parts and the separator have |
| PromptAI.AllCharsConcat | WildPromptorAI.py:28 | a property of every character holds across a concatenation |
| PromptAI.CleanPromptTidy | WildPromptorAI.py:24-32 | the cleaned output holds no '*', no newline, tab or other whitespace but ' ', and no whitespace at either end |
| PromptAI.CollapseKeepsChars | WildPromptorAI.py:27 | collapsing brings in nothing but ' ' |
| PromptAI.SuffixKeepsChars | WildPromptorAI.py:27 | a suffix keeps a property of every character |
| PromptAI.FormatPromptRoundTrip | WildPromptorAI.py:34-35 | the template holds the keywords verbatim between its fixed prefix and suffix, and they are read back from it |
| Ollama.Refresh | WildPromptorOllama.py:54-81 | `get_ollama_models` on the class state: throttle, server down, listing, failure; `RefreshThrottled`, `EmptyListingCached`, `FailureRefreshesAgain`, `RefreshListed` and `RefreshKeepsKnownStatus` state its properties |
| Ollama.Promote | WildPromptorOllama.py:73-75 | moving the default model to the front; `PromoteSpec` states its property |
| Ollama.RemoveFirst | WildPromptorOllama.py:74 | `list.remove(x)` takes out one element |
| Ollama.IndexOf | WildPromptorOllama.py:73-74 | the first position holding the value |
| Ollama.RemoveFirstAt | WildPromptorOllama.py:74 | removing the first `x` keeps everything before and after it, in order |
| Ollama.PromoteSpec | WildPromptorOllama.py:73-75 | remove-then-insert is a permutation; a present default model comes first and the other names keep their order |
| Ollama.MovedToFront | WildPromptorOllama.py:74-75 | moving one element to the front keeps the multiset |
| Ollama.RefreshThrottled | WildPromptorOllama.py:56-58 | within a second of the last refresh the cached list is offered and no state changes |
| Ollama.EmptyListingCached | WildPromptorOllama.py:70-76 | an empty listing offers "No available models" but caches `[]`, which the next call within a second offers |
| Ollama.FailureRefreshesAgain | WildPromptorOllama.py:62-81 | server down or a failed listing sets its status and placeholder without moving the refresh time, so the next call behaves as if it had not happened |
| Ollama.RefreshListed | WildPromptorOllama.py:67-76 | a successful listing caches the names with the default model promoted, sets "Connected" and the refresh time, and offers them or "No available models" |
| Ollama.RefreshKeepsKnownStatus | WildPromptorOllama.py:10-81 | the status is always one of the four the class uses |
| Ollama.ErrorMessage | WildPromptorOllama.py:86 | the message starts with "Error: " |
| Ollama.ModelCache.constructor | WildPromptorOllama.py:10-12 | "Not connected", `["Waiting for connection..."]`, refresh time 0 |
| Ollama.ModelCache.GetModels | WildPromptorOllama.py:54-81 | the class fields and the offered list move as `Refresh` describes |
| Ollama.ModelCache.HandleError | WildPromptorOllama.py:84-88 | returns "Error: {context} - {error}" and sets "Connection failed", changing nothing else |
| Ollama.Truncate | WildPromptorOllama.py:118-119 | at most `max_length` characters, a prefix of the text, the whole text when it fits |
| Ollama.RenderedSpec | WildPromptorOllama.py:115-122 | an answer is a prefix of the cleaned reply of at most `max_length` characters, tidy as `clean_prompt` promises; a failure reads "Error: {context} - ..." |
| Ollama.EndingOf | WildPromptorOllama.py:111-132 | an attempt goes on only after a timeout before the third |
| Ollama.Attempts | WildPromptorOllama.py:110-132 | the loop makes between one and three POSTs |
| Ollama.AttemptsSpec | WildPromptorOllama.py:110-132 | every POST but the last timed out, and the last one decides the ending; a timeout there is the third |
| Ollama.Repeat | WildPromptorOllama.py:112 | `n` requests |
| Ollama.HandleAttempt | WildPromptorOllama.py:111-132 | one pass of the `try`: goes on only after an early timeout, otherwise returns the rendered ending; an error marks the cache failed |
| Ollama.Retry | WildPromptorOllama.py:109-132 | the text is the rendered ending of `Attempts`; one identical request per POST, one sleep between POSTs, the cache failed exactly on an error |
| Ollama.GeneratePrompt | WildPromptorOllama.py:90-132 | server down or a placeholder model return fixed messages with no POST; otherwise the retry loop on the formatted payload |
| Ollama.TextReplyAnswers | WildPromptorOllama.py:113-132 | a reply always answers, a missing `response` as the empty text; failures come only from a third timeout, a network error or another exception |
| OllamaVision.KeepAliveRoundTrip | WildPromptorOllamaVision.py:126 | the minutes are read back from the `"{Keep_alive}m"` field |
| OllamaVision.Encoded | WildPromptorOllamaVision.py:109-116 | one base64 string per image |
| OllamaVision.EncodeImages | WildPromptorOllamaVision.py:109-116 | the loop encodes every image, in order |
| OllamaVision.GetVisionModels | WildPromptorOllamaVision.py:56-80 | the text node's transitions on the vision node's own cache, with no default model |
| OllamaVision.VisionListingKeepsOrder | WildPromptorOllamaVision.py:69-75 | a successful listing is cached in the order listed |
| OllamaVision.GenerateVisionPrompt | WildPromptorOllamaVision.py:99-152 | an empty `Server_url` falls back to the configured URL; the server-down and placeholder guards; the payload with the images, `stream` false and the keep-alive field; the retry loop |
| OllamaVision.MissingResponseFails | WildPromptorOllamaVision.py:135-152 | a reply without `response` ends at once as "Unknown issue" naming the key; an answer comes exactly from a reply holding it |
| Enhancer.Run | AI/WildPromptor_Enhancer.py:73-95 | the loop of `enhancer` as a recursion, stopping at the first exception; `RunSpec`, `RunRaises` and `RunStaysRaised` state its properties |
| Enhancer.Finish | AI/WildPromptor_Enhancer.py:93-100 | how the node returns: `["Error: ..."]`, one joined string, or the outputs; `FinishShape` states its property |
| Enhancer.RunSpec | AI/WildPromptor_Enhancer.py:73-91 | without an exception there is one output per iteration, in order, each what the pipeline gave for that iteration's call |
| Enhancer.ScheduledAppend | AI/WildPromptor_Enhancer.py:74-81 | the next call keeps the schedule |
| Enhancer.RunRaises | AI/WildPromptor_Enhancer.py:73-95 | an exception comes from the first iteration that raised |
| Enhancer.RunStaysRaised | AI/WildPromptor_Enhancer.py:73-95 | after an exception the loop is over |
| Enhancer.SeedSchedule | AI/WildPromptor_Enhancer.py:71-79 | input "enhance prompt: " + prompt; seed `seed + i` when `seed != 0`, else 0; sampling at 0.7 exactly for a non-zero seed |
| Enhancer.FinishShape | AI/WildPromptor_Enhancer.py:93-100 | combined outputs are one string joined with "\n---\n"; otherwise the outputs themselves; an exception gives `["Error: ..."]` |
| Enhancer.Enhance | AI/WildPromptor_Enhancer.py:66-100 | a blank prompt gives `[]` and no call; otherwise the outputs and calls `Run` describes, finished as `Finish` says |

## Left out

- File, directory and configuration I/O are values: a map of files, a map of directory listings, and the configured URL and default model.
- Python's Mersenne Twister is not modelled. `random.seed(seed)` is the draw stream `rng` passed in; CPython's `choice`, `sample` and `shuffle` algorithms are modelled over it.
- A file's bytes are not modelled: a file is its decoded text, `Unreadable` (another `OSError`), or `Undecodable` (a `UnicodeDecodeError`). The wordlist readers catch both errors or let both escape, as each source file does; the list-to-prompt node catches only the first.
- `INPUT_TYPES` and node registration are left out (`__init__.py`, `NODE_CLASS_MAPPINGS`, `create_Promptor_node`). The menu keys are modelled only as the strings the nodes build and parse.
- HTTP is left out: `check_ollama_server`, `/api/tags`, `/api/generate`, `raise_for_status` and JSON decoding become the oracles `up`, `Tags` and `Attempt`.
- `Ollama.Attempt`: which exception a POST raises is an oracle. A body that is not JSON is taken as `RequestFailed` ("Network issue"), as with `requests` 2.27 and later, whose `JSONDecodeError` is a `RequestException`; with older versions it would be "Unknown issue". A `response` value that is not a string is `Crashed` ("Unknown issue").
- The aiohttp `/ollama/get_models` route of the vision node is left out.
- `time.time` is a `real` parameter, and `time.sleep(2)` is a counted sleep.
- `print` logging is left out.
- Image tensor to PNG to base64 conversion is the oracle `encode`.
- The enhancer's model loading, torch inference and the fixed sampling settings (`max_length`, `top_k`, `top_p`, `num_return_sequences`) are left out. The pipeline is the oracle `pipe`, which sees the input, the seed and `do_sample`/`temperature`.
- A seed beyond 64 bits raises in `torch.manual_seed`; it is the parameter `overflow` holding that exception's text.
- WildPromptorGemini.py is not part of this model. Its own logic is the `clean_prompt` call and the truncation, which the Ollama nodes cover.
- `Text.Lower`, `PromptAI.SameIgnoringCase`: `re.IGNORECASE` is modelled as ASCII lower-casing. Python's Unicode case folding of other letters is not modelled.
- `PromptAI.IsWordChar`: `\w` is modelled as ASCII letters, digits and '_'. Python's Unicode word characters are not modelled.
- PyRandom.Sample: models only CPython's pool branch of `random.sample`. For a population larger than 21 (larger still when more than 5 are sampled), CPython switches to a set-based branch that rejects repeated draws, and the same draws then pick different elements. What is proved holds for both branches: `k` elements at distinct positions, and for `k == 1` the same element as `random.choice` (`SampleOneIsChoice`). For one element both branches draw `randbelow(n)` once and take that position, so the nodes' `random.sample(options, 1)` is exact; only the keyword pickers (`PromptTools.Picked`, `LegacyPromptTools.LegacyPick`) can differ from CPython, with more than 21 keywords.
- `DataToPromptList.GeneratePrompts`: `count_start_from` is required to be at least 1, the minimum the node's input declares. A smaller value would make Python's negative index count from the end.
- `DataToPromptList.Wrap`: `i % m` is computed by repeated subtraction, which is Python's `%` for the natural numbers the loop uses.
- `DataToPromptList.Arrange`: Random mode copies the list into an array and shuffles that in place. Aliasing of the caller's list is not modelled.
- `PromptTools.Concat` and `LegacyPromptTools.LegacyConcat`: the category inputs are strings. A list value, which the legacy filter compares with `[""]` and `[]`, is not modelled.
- `Ollama.ModelCache`: both nodes' class attributes are one object per class. Sharing between instances is the same object; threads are not modelled.
- The phrase "artistic style" in the cleaner can never match, because "style" is removed first. The model keeps that order and proves nothing more about it.

## Findings

| source | as written | input that shows it | evidently intended | confidence | as-written member | corrected member |
|---|---|---|---|---|---|---|
| py/WildPromptor.py:182-185 | sorting puts the raw `prefix` back in front of `parts[1:]`, so with a blank prefix the first kept part is replaced by "" | `prefix=""`, inputs "b" and "a", `sort=True`, comma separator gives ", a" and "b" is lost | pin the first and last slots only when they are the prefix and the suffix, and sort the rest, losing nothing | not executed | PromptTools.ConcatSortDropsFirstPart | PromptTools.ConcatFixedKeepsParts |
| py/WildPromptor.py:244-249 | the two inputs are glued with "," but the list is split on ", ", so the glue sticks to a keyword | `input_keywords=""`, `keywords="a, b"`, ordered, `pick_count=1` gives ",a" | glue with the separator the list is split on, so the keywords are those of both inputs | not executed | PromptTools.PickKeepsGlue | PromptTools.FixedKeywordsConcatenate |
