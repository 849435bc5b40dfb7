/** The batch loop shared by every prompt-list, All-In-One and Generator node:
    for each batch index, every (key, value) selection is resolved in order to
    a part or to nothing; the parts of one iteration are joined into a record,
    and an iteration without parts adds no record. An exception raised while
    resolving aborts the whole call. Each node supplies its own resolver, and
    all of them consume the same stream of random draws in call order. */
module Combine {
  import opened Wrappers
  import opened Text
  import opened Wordlist

  /** What a selection contributes to one record. */
  datatype Pick = Omit | Part(text: string)

  /** Resolving one selection: a pick and the number of random draws it used,
      or an exception. */
  datatype Step = Took(pick: Pick, draws: nat) | Raised(error: string)

  /** `resolve(key, value, i, k)`: the step for selection (key, value) in batch
      iteration `i` when `k` draws have been used so far. */
  type Resolver = (string, string, nat, nat) -> Step

  /** The parts of record `i` from the selections `kwargs`, starting at draw
      `k`, with the draw count afterwards. */
  function Parts(resolve: Resolver, kwargs: seq<(string, string)>, i: nat, k: nat): Result<(seq<string>, nat)>
    decreases |kwargs|
  {
    if kwargs == [] then Ok(([], k))
    else
      match Parts(resolve, kwargs[..|kwargs| - 1], i, k)
      case Raise(e) => Raise(e)
      case Ok((parts, k1)) =>
        var (key, value) := kwargs[|kwargs| - 1];
        match resolve(key, value, i, k1)
        case Raised(e) => Raise(e)
        case Took(Omit, d) => Ok((parts, k1 + d))
        case Took(Part(t), d) => Ok((parts + [t], k1 + d))
  }

  /** One more selection: its step extends the parts, or raises. */
  lemma PartsStep(resolve: Resolver, kwargs: seq<(string, string)>, j: nat, i: nat, k0: nat, parts: seq<string>, k: nat)
    requires j < |kwargs| && Parts(resolve, kwargs[..j], i, k0) == Ok((parts, k))
    ensures Parts(resolve, kwargs[..j + 1], i, k0) ==
      match resolve(kwargs[j].0, kwargs[j].1, i, k)
      case Raised(e) => Raise(e)
      case Took(Omit, d) => Ok((parts, k + d))
      case Took(Part(t), d) => Ok((parts + [t], k + d))
  {
    assert kwargs[..j + 1][..j] == kwargs[..j];
  }

  /** The records of the first `n` iterations, with the draw count afterwards. */
  function Records(resolve: Resolver, kwargs: seq<(string, string)>, n: nat, joiner: string): Result<(seq<string>, nat)> {
    if n == 0 then Ok(([], 0))
    else
      match Records(resolve, kwargs, n - 1, joiner)
      case Raise(e) => Raise(e)
      case Ok((records, k)) =>
        match Parts(resolve, kwargs, n - 1, k)
        case Raise(e) => Raise(e)
        case Ok((parts, k1)) => Ok((if parts == [] then records else records + [Join(parts, joiner)], k1))
  }

  /** The list a batch of `n` iterations produces, before any fallback. */
  function Batch(resolve: Resolver, kwargs: seq<(string, string)>, n: nat, joiner: string): Result<seq<string>> {
    match Records(resolve, kwargs, n, joiner)
    case Ok((records, _)) => Ok(records)
    case Raise(e) => Raise(e)
  }

  /** An exception in a prefix of the selections is the exception of them all. */
  lemma {:induction false} PartsRaisePersists(resolve: Resolver, kwargs: seq<(string, string)>, m: nat, i: nat, k: nat)
    requires m <= |kwargs| && Parts(resolve, kwargs[..m], i, k).Raise?
    ensures Parts(resolve, kwargs, i, k) == Parts(resolve, kwargs[..m], i, k)
    decreases |kwargs| - m
  {
    if m < |kwargs| {
      assert kwargs[..m + 1][..m] == kwargs[..m];
      PartsRaisePersists(resolve, kwargs, m + 1, i, k);
    } else {
      assert kwargs[..m] == kwargs;
    }
  }

  /** An exception in an early iteration is the exception of the whole batch. */
  lemma {:induction false} RecordsRaisePersists(resolve: Resolver, kwargs: seq<(string, string)>, m: nat, n: nat, joiner: string)
    requires m <= n && Records(resolve, kwargs, m, joiner).Raise?
    ensures Records(resolve, kwargs, n, joiner) == Records(resolve, kwargs, m, joiner)
    decreases n - m
  {
    if m < n {
      RecordsRaisePersists(resolve, kwargs, m, n - 1, joiner);
    }
  }

  /** The nested loops of `process_prompt`: the outer one over the batch, the
      inner one over the selections, appending parts and then records. */
  method CombineBatch(resolve: Resolver, kwargs: seq<(string, string)>, n: nat, joiner: string) returns (r: Result<seq<string>>)
    ensures r == Batch(resolve, kwargs, n, joiner)
  {
    var all: seq<string> := [];
    var k: nat := 0;
    var i := 0;
    while i < n
      invariant 0 <= i <= n
      invariant Records(resolve, kwargs, i, joiner) == Ok((all, k))
    {
      var step := CombineParts(resolve, kwargs, i, k);
      if step.Raise? {
        RecordsRaisePersists(resolve, kwargs, i + 1, n, joiner);
        return Raise(step.error);
      }
      var parts := step.value.0;
      k := step.value.1;
      if parts != [] {
        all := all + [Join(parts, joiner)];
      }
      i := i + 1;
    }
    return Ok(all);
  }

  /** The inner loop of `process_prompt` for iteration `i`, starting after
      `k0` draws. */
  method CombineParts(resolve: Resolver, kwargs: seq<(string, string)>, i: nat, k0: nat)
    returns (r: Result<(seq<string>, nat)>)
    ensures r == Parts(resolve, kwargs, i, k0)
  {
    var parts: seq<string> := [];
    var k := k0;
    var j := 0;
    while j < |kwargs|
      invariant 0 <= j <= |kwargs|
      invariant Parts(resolve, kwargs[..j], i, k0) == Ok((parts, k))
    {
      var (key, value) := kwargs[j];
      PartsStep(resolve, kwargs, j, i, k0, parts, k);
      var step := resolve(key, value, i, k);
      match step {
        case Raised(e) =>
          PartsRaisePersists(resolve, kwargs, j + 1, i, k0);
          return Raise(e);
        case Took(chosen, d) =>
          if chosen.Part? {
            parts := parts + [chosen.text];
          }
          k := k + d;
      }
      j := j + 1;
    }
    assert kwargs[..|kwargs|] == kwargs;
    return Ok((parts, k));
  }

  /** The selections whose value is not `sentinel`, in order: the dict
      comprehension of `select_options`. */
  function Drop(kwargs: seq<(string, string)>, sentinel: string): seq<(string, string)> {
    if kwargs == [] then []
    else (if kwargs[0].1 != sentinel then [kwargs[0]] else []) + Drop(kwargs[1..], sentinel)
  }

  /** Dropping removes exactly the entries whose value is `sentinel` and
      keeps the others: a list without any is passed on unchanged. */
  lemma DropFilters(kwargs: seq<(string, string)>, sentinel: string)
    ensures forall e | e in Drop(kwargs, sentinel) :: e in kwargs && e.1 != sentinel
    ensures forall e | e in kwargs && e.1 != sentinel :: e in Drop(kwargs, sentinel)
    ensures (forall j | 0 <= j < |kwargs| :: kwargs[j].1 != sentinel) ==> Drop(kwargs, sentinel) == kwargs
  {
    DropSound(kwargs, sentinel);
    DropKeeps(kwargs, sentinel);
    if forall j | 0 <= j < |kwargs| :: kwargs[j].1 != sentinel {
      DropNothing(kwargs, sentinel);
    }
  }

  lemma {:induction false} DropSound(kwargs: seq<(string, string)>, sentinel: string)
    ensures forall e | e in Drop(kwargs, sentinel) :: e in kwargs && e.1 != sentinel
  {
    if kwargs != [] {
      DropSound(kwargs[1..], sentinel);
      assert Drop(kwargs, sentinel) == (if kwargs[0].1 != sentinel then [kwargs[0]] else []) + Drop(kwargs[1..], sentinel);
    }
  }

  lemma {:induction false} DropKeeps(kwargs: seq<(string, string)>, sentinel: string)
    ensures forall e | e in kwargs && e.1 != sentinel :: e in Drop(kwargs, sentinel)
  {
    if kwargs != [] {
      DropKeeps(kwargs[1..], sentinel);
      forall e | e in kwargs && e.1 != sentinel ensures e in Drop(kwargs, sentinel) {
        if e != kwargs[0] {
          var j :| 0 <= j < |kwargs| && kwargs[j] == e;
          assert kwargs[1..][j - 1] == e;
        }
      }
    }
  }

  lemma {:induction false} DropNothing(kwargs: seq<(string, string)>, sentinel: string)
    requires forall j | 0 <= j < |kwargs| :: kwargs[j].1 != sentinel
    ensures Drop(kwargs, sentinel) == kwargs
  {
    if kwargs != [] {
      assert forall j | 0 <= j < |kwargs[1..]| :: kwargs[1..][j].1 != sentinel by {
        forall j | 0 <= j < |kwargs[1..]| ensures kwargs[1..][j].1 != sentinel {
          assert kwargs[1..][j] == kwargs[j + 1];
        }
      }
      DropNothing(kwargs[1..], sentinel);
      assert kwargs == [kwargs[0]] + kwargs[1..];
    }
  }

  /** `(all_prompts,) if all_prompts else ([""],)`. */
  function OrBlank(b: Result<seq<string>>): (r: Result<seq<string>>)
    ensures b.Raise? ==> r == b
    ensures b.Ok? && b.value != [] ==> r == b
    ensures b.Ok? && b.value == [] ==> r == Ok([""])
  {
    match b
    case Ok(records) => if records == [] then Ok([""]) else Ok(records)
    case Raise(e) => Raise(e)
  }

  // ------------------------------------------------------------ properties

  /** Whether a selection contributes does not depend on the iteration or on
      the draws: exactly the selections `contributes` names always add a
      part, and none raises. */
  ghost predicate Steady(resolve: Resolver, kwargs: seq<(string, string)>, contributes: (string, string) -> bool) {
    forall j, i, k | 0 <= j < |kwargs| ::
      var s := resolve(kwargs[j].0, kwargs[j].1, i, k);
      s.Took? && (s.pick.Part? <==> contributes(kwargs[j].0, kwargs[j].1))
  }

  ghost predicate AnyContributes(kwargs: seq<(string, string)>, contributes: (string, string) -> bool) {
    exists j | 0 <= j < |kwargs| :: contributes(kwargs[j].0, kwargs[j].1)
  }

  lemma {:induction false} SteadyParts(resolve: Resolver, kwargs: seq<(string, string)>, contributes: (string, string) -> bool, i: nat, k: nat)
    requires Steady(resolve, kwargs, contributes)
    ensures Parts(resolve, kwargs, i, k).Ok?
    ensures Parts(resolve, kwargs, i, k).value.0 != [] <==> AnyContributes(kwargs, contributes)
    decreases |kwargs|
  {
    if kwargs != [] {
      var init := kwargs[..|kwargs| - 1];
      assert Steady(resolve, init, contributes) by {
        forall j, i2, k2 | 0 <= j < |init| ensures
          var s := resolve(init[j].0, init[j].1, i2, k2);
          s.Took? && (s.pick.Part? <==> contributes(init[j].0, init[j].1))
        {
          assert init[j] == kwargs[j];
        }
      }
      SteadyParts(resolve, init, contributes, i, k);
      if AnyContributes(init, contributes) {
        var j :| 0 <= j < |init| && contributes(init[j].0, init[j].1);
        assert kwargs[j] == init[j];
      }
      if AnyContributes(kwargs, contributes) && !contributes(kwargs[|kwargs| - 1].0, kwargs[|kwargs| - 1].1) {
        var j :| 0 <= j < |kwargs| && contributes(kwargs[j].0, kwargs[j].1);
        assert init[j] == kwargs[j];
      }
    }
  }

  /** When contribution is steady, a batch yields exactly `n` records if some
      selection contributes and none otherwise. */
  lemma {:induction false} SteadyBatch(resolve: Resolver, kwargs: seq<(string, string)>, contributes: (string, string) -> bool, n: nat, joiner: string)
    requires Steady(resolve, kwargs, contributes)
    ensures Batch(resolve, kwargs, n, joiner).Ok?
    ensures |Batch(resolve, kwargs, n, joiner).value| == if AnyContributes(kwargs, contributes) then n else 0
  {
    SteadyRecords(resolve, kwargs, contributes, n, joiner);
  }

  lemma {:induction false} SteadyRecords(resolve: Resolver, kwargs: seq<(string, string)>, contributes: (string, string) -> bool, n: nat, joiner: string)
    requires Steady(resolve, kwargs, contributes)
    ensures Records(resolve, kwargs, n, joiner).Ok?
    ensures |Records(resolve, kwargs, n, joiner).value.0| == if AnyContributes(kwargs, contributes) then n else 0
  {
    if n > 0 {
      SteadyRecords(resolve, kwargs, contributes, n - 1, joiner);
      SteadyParts(resolve, kwargs, contributes, n - 1, Records(resolve, kwargs, n - 1, joiner).value.1);
    }
  }

  /** How many of the selections `contributes` names. */
  function Contributing(kwargs: seq<(string, string)>, contributes: (string, string) -> bool): nat
    decreases |kwargs|
  {
    if kwargs == [] then 0
    else
      var (key, value) := kwargs[|kwargs| - 1];
      Contributing(kwargs[..|kwargs| - 1], contributes) + if contributes(key, value) then 1 else 0
  }

  /** When contribution is steady, every iteration has one part per
      contributing selection, whatever the iteration and the draws before it. */
  lemma {:induction false} SteadyPartCount(resolve: Resolver, kwargs: seq<(string, string)>, contributes: (string, string) -> bool, i: nat, k: nat)
    requires Steady(resolve, kwargs, contributes)
    ensures Parts(resolve, kwargs, i, k).Ok?
    ensures |Parts(resolve, kwargs, i, k).value.0| == Contributing(kwargs, contributes)
    decreases |kwargs|
  {
    if kwargs != [] {
      var init := kwargs[..|kwargs| - 1];
      assert Steady(resolve, init, contributes) by {
        forall j, i2, k2 | 0 <= j < |init| ensures
          var s := resolve(init[j].0, init[j].1, i2, k2);
          s.Took? && (s.pick.Part? <==> contributes(init[j].0, init[j].1))
        {
          assert init[j] == kwargs[j];
        }
      }
      SteadyPartCount(resolve, init, contributes, i, k);
    }
  }

  /** When contribution is steady, every record of a batch joins exactly one
      part per contributing selection. */
  lemma {:induction false} SteadyRecordShape(resolve: Resolver, kwargs: seq<(string, string)>, contributes: (string, string) -> bool, n: nat, joiner: string)
    requires Steady(resolve, kwargs, contributes)
    ensures Records(resolve, kwargs, n, joiner).Ok?
    ensures forall r | r in Records(resolve, kwargs, n, joiner).value.0 ::
      exists parts: seq<string> :: |parts| == Contributing(kwargs, contributes) && r == Join(parts, joiner)
  {
    if n > 0 {
      SteadyRecordShape(resolve, kwargs, contributes, n - 1, joiner);
      var (records, k) := Records(resolve, kwargs, n - 1, joiner).value;
      SteadyPartCount(resolve, kwargs, contributes, n - 1, k);
      var parts := Parts(resolve, kwargs, n - 1, k).value.0;
      forall r | r in Records(resolve, kwargs, n, joiner).value.0
        ensures exists ps: seq<string> :: |ps| == Contributing(kwargs, contributes) && r == Join(ps, joiner)
      {
        if r !in records {
          assert r == Join(parts, joiner);
        }
      }
    }
  }

  /** The same for the batch: with steady contribution every prompt joins
      one part per contributing selection, and there are `n` of them or none. */
  lemma {:induction false} SteadyBatchShape(resolve: Resolver, kwargs: seq<(string, string)>, contributes: (string, string) -> bool, n: nat, joiner: string)
    requires Steady(resolve, kwargs, contributes)
    ensures Batch(resolve, kwargs, n, joiner).Ok?
    ensures |Batch(resolve, kwargs, n, joiner).value| == if AnyContributes(kwargs, contributes) then n else 0
    ensures forall r | r in Batch(resolve, kwargs, n, joiner).value ::
      exists parts: seq<string> :: |parts| == Contributing(kwargs, contributes) && r == Join(parts, joiner)
  {
    SteadyRecords(resolve, kwargs, contributes, n, joiner);
    SteadyRecordShape(resolve, kwargs, contributes, n, joiner);
  }

  /** A single selection that yields the part `f(i)` in every iteration `i`
      gives exactly the records f(0), ..., f(n - 1). */
  lemma {:induction false} SingleEveryIteration(resolve: Resolver, kv: (string, string), n: nat, joiner: string, f: nat -> string)
    requires forall i, k :: resolve(kv.0, kv.1, i, k).Took? && resolve(kv.0, kv.1, i, k).pick == Part(f(i))
    ensures Batch(resolve, [kv], n, joiner).Ok?
    ensures |Batch(resolve, [kv], n, joiner).value| == n
    ensures forall i | 0 <= i < n :: Batch(resolve, [kv], n, joiner).value[i] == f(i)
  {
    SingleRecords(resolve, kv, n, joiner, f);
  }

  lemma {:induction false} SingleRecords(resolve: Resolver, kv: (string, string), n: nat, joiner: string, f: nat -> string)
    requires forall i, k :: resolve(kv.0, kv.1, i, k).Took? && resolve(kv.0, kv.1, i, k).pick == Part(f(i))
    ensures Records(resolve, [kv], n, joiner).Ok?
    ensures |Records(resolve, [kv], n, joiner).value.0| == n
    ensures forall i | 0 <= i < n :: Records(resolve, [kv], n, joiner).value.0[i] == f(i)
  {
    if n > 0 {
      SingleRecords(resolve, kv, n - 1, joiner, f);
      var k := Records(resolve, [kv], n - 1, joiner).value.1;
      assert [kv][..0] == [];
      assert Parts(resolve, [kv][..0], n - 1, k) == Ok(([], k));
    }
  }

  /** A single selection whose parts are always drawn from `pool` gives
      records that are all members of `pool`. */
  lemma {:induction false} SingleDrawnFrom(resolve: Resolver, kv: (string, string), n: nat, joiner: string, pool: seq<string>)
    requires forall i, k :: resolve(kv.0, kv.1, i, k).Took? && (resolve(kv.0, kv.1, i, k).pick.Part? ==> resolve(kv.0, kv.1, i, k).pick.text in pool)
    ensures Batch(resolve, [kv], n, joiner).Ok?
    ensures forall r | r in Batch(resolve, [kv], n, joiner).value :: r in pool
  {
    SingleDrawnRecords(resolve, kv, n, joiner, pool);
  }

  lemma {:induction false} SingleDrawnRecords(resolve: Resolver, kv: (string, string), n: nat, joiner: string, pool: seq<string>)
    requires forall i, k :: resolve(kv.0, kv.1, i, k).Took? && (resolve(kv.0, kv.1, i, k).pick.Part? ==> resolve(kv.0, kv.1, i, k).pick.text in pool)
    ensures Records(resolve, [kv], n, joiner).Ok?
    ensures forall r | r in Records(resolve, [kv], n, joiner).value.0 :: r in pool
  {
    if n > 0 {
      SingleDrawnRecords(resolve, kv, n - 1, joiner, pool);
      var k := Records(resolve, [kv], n - 1, joiner).value.1;
      assert [kv][..0] == [];
      assert Parts(resolve, [kv][..0], n - 1, k) == Ok(([], k));
    }
  }

  // ------------------------------------------------------- cached file reads

  /** Which file, if any, a selection needs before it can be resolved, or the
      exception finding it raises (a key that does not parse, a missing
      folder). */
  datatype Need = NoFile | ReadFile(path: FilePath) | Fail(error: string)

  /** `pick(key, value, options, i, k)`: the step once the file's options are known. */
  type Picker = (string, string, seq<string>, nat, nat) -> Step

  /** The resolver of a node that reads files through a cache whose reads answer `view`. */
  function CachedResolver(need: (string, string) -> Need, pick: Picker, view: FilePath -> seq<string>): Resolver {
    (key: string, value: string, i: nat, k: nat) =>
      match need(key, value)
      case Fail(e) => Raised(e)
      case NoFile => pick(key, value, [], i, k)
      case ReadFile(p) => pick(key, value, view(p), i, k)
  }

  /** Resolving one selection, reading its file through the cache. */
  method CachedStep(cache: FileCache, files: map<FilePath, File>, need: (string, string) -> Need, pick: Picker,
                    ghost entries0: map<FilePath, seq<string>>, key: string, value: string, i: nat, k: nat)
    returns (step: Step)
    modifies cache
    requires forall q :: cache.View(files, q) == CacheView(entries0, files, q)
    ensures step == CachedResolver(need, pick, p => CacheView(entries0, files, p))(key, value, i, k)
    ensures forall q :: cache.View(files, q) == CacheView(entries0, files, q)
    ensures old(cache.Agrees(files)) ==> cache.Agrees(files)
  {
    match need(key, value) {
      case Fail(e) =>
        step := Raised(e);
      case NoFile =>
        step := pick(key, value, [], i, k);
      case ReadFile(p) =>
        var options := cache.ReadFileOptions(files, p);
        step := pick(key, value, options, i, k);
    }
  }

  /** One iteration of the Generator nodes' inner loop over the selections,
      reading files through the node's `file_cache`. */
  method CachedParts(cache: FileCache, files: map<FilePath, File>, need: (string, string) -> Need, pick: Picker,
                     ghost entries0: map<FilePath, seq<string>>, kwargs: seq<(string, string)>, i: nat, k0: nat)
    returns (r: Result<(seq<string>, nat)>)
    modifies cache
    requires forall q :: cache.View(files, q) == CacheView(entries0, files, q)
    ensures r == Parts(CachedResolver(need, pick, p => CacheView(entries0, files, p)), kwargs, i, k0)
    ensures forall q :: cache.View(files, q) == CacheView(entries0, files, q)
    ensures old(cache.Agrees(files)) ==> cache.Agrees(files)
  {
    ghost var resolve := CachedResolver(need, pick, p => CacheView(entries0, files, p));
    var parts: seq<string> := [];
    var k := k0;
    var j := 0;
    while j < |kwargs|
      invariant 0 <= j <= |kwargs|
      invariant Parts(resolve, kwargs[..j], i, k0) == Ok((parts, k))
      invariant forall q :: cache.View(files, q) == CacheView(entries0, files, q)
      invariant old(cache.Agrees(files)) ==> cache.Agrees(files)
    {
      var (key, value) := kwargs[j];
      PartsStep(resolve, kwargs, j, i, k0, parts, k);
      var step := CachedStep(cache, files, need, pick, entries0, key, value, i, k);
      match step {
        case Raised(e) =>
          PartsRaisePersists(resolve, kwargs, j + 1, i, k0);
          return Raise(e);
        case Took(chosen, d) =>
          if chosen.Part? {
            parts := parts + [chosen.text];
          }
          k := k + d;
      }
      j := j + 1;
    }
    assert kwargs[..|kwargs|] == kwargs;
    return Ok((parts, k));
  }

  /** The Generator nodes' `process_prompt`: the same nested loops, reading
      files through the node's `file_cache`. The batch is the one a resolver
      reading the cache as it stood at the call would give, and the cache
      answers every later read as it did before. */
  method CachedCombineBatch(cache: FileCache, files: map<FilePath, File>, need: (string, string) -> Need, pick: Picker,
                            kwargs: seq<(string, string)>, n: nat, joiner: string) returns (r: Result<seq<string>>)
    modifies cache
    ensures r == Batch(CachedResolver(need, pick, p => CacheView(old(cache.entries), files, p)), kwargs, n, joiner)
    ensures forall q :: cache.View(files, q) == old(cache.View(files, q))
    ensures old(cache.Agrees(files)) ==> cache.Agrees(files)
  {
    ghost var entries0 := cache.entries;
    ghost var resolve := CachedResolver(need, pick, p => CacheView(entries0, files, p));
    var all: seq<string> := [];
    var k: nat := 0;
    var i := 0;
    while i < n
      invariant 0 <= i <= n
      invariant Records(resolve, kwargs, i, joiner) == Ok((all, k))
      invariant forall q :: cache.View(files, q) == CacheView(entries0, files, q)
      invariant old(cache.Agrees(files)) ==> cache.Agrees(files)
    {
      var iteration := CachedParts(cache, files, need, pick, entries0, kwargs, i, k);
      match iteration {
        case Raise(e) =>
          RecordsRaisePersists(resolve, kwargs, i + 1, n, joiner);
          return Raise(e);
        case Ok((parts, k1)) =>
          if parts != [] {
            all := all + [Join(parts, joiner)];
          }
          k := k1;
      }
      i := i + 1;
    }
    return Ok(all);
  }
}
