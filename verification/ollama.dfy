/** The Ollama text node (WildPromptorOllama.py): the model-list cache with
    its connection status, kept as class-level state shared by every node
    instance, the error handler, and `generate_prompt` with its guards and
    its three-attempt retry loop. The HTTP server is an oracle: whether it
    answers `/api/version`, what `/api/tags` lists, and what each POST to
    `/api/generate` ends in. Time is a parameter and every `time.sleep(2)`
    a counted event. */
module Ollama {
  import opened Wrappers
  import opened Text
  import opened PromptAI

  const NotConnected := "Not connected"
  const ServerNotRunning := "Server not running"
  const Connected := "Connected"
  const ConnectionFailed := "Connection failed"

  const WaitingModel := "Waiting for connection..."
  const NotRunningModel := "Ollama server not running"
  const FetchFailedModel := "Unable to fetch models"
  const NoModelsModel := "No available models"

  /** Model names that stand for "no model yet" in the selection list. */
  const Placeholders: seq<string> := [WaitingModel, NotRunningModel, FetchFailedModel]

  const ServerDownMessage := "Ollama server is not running. Please start the server and try again."
  const NotReadyMessage := "Ollama server not connected or models not available. Please ensure Ollama is running and refresh the model list."
  const PromptTimeoutMessage := "Max retries reached. Unable to generate prompt."

  const MaxRetries: nat := 3

  // ------------------------------------------------------------ model cache

  /** What `GET {url}/api/tags` gives: the listed model names, or a failure
      of any kind (the request, its HTTP status, or the shape of its JSON). */
  datatype Tags = Listed(names: seq<string>) | ListFailed

  /** The class-level fields `ollama_status`, `cached_models` and
      `last_refresh_time`. */
  datatype CacheState = CacheState(status: string, models: seq<string>, refreshed: real)

  /** Python's `list.remove(x)` when `x` is present: the first `x` goes. */
  function RemoveFirst<T(==)>(xs: seq<T>, x: T): (r: seq<T>)
    ensures x in xs ==> |r| == |xs| - 1
    ensures x !in xs ==> r == xs
  {
    if xs == [] then []
    else if xs[0] == x then xs[1..]
    else [xs[0]] + RemoveFirst(xs[1..], x)
  }

  /** Python's `list.index(x)`. */
  function IndexOf<T(==)>(xs: seq<T>, x: T): (i: nat)
    requires x in xs
    ensures i < |xs| && xs[i] == x
    ensures forall k | 0 <= k < i :: xs[k] != x
  {
    if xs[0] == x then 0 else 1 + IndexOf(xs[1..], x)
  }

  /** Removing the first `x` keeps everything before and after it in order. */
  lemma {:induction false} RemoveFirstAt<T>(xs: seq<T>, x: T)
    requires x in xs
    ensures RemoveFirst(xs, x) == xs[..IndexOf(xs, x)] + xs[IndexOf(xs, x) + 1..]
  {
    if xs[0] != x {
      var t := xs[1..];
      var j := IndexOf(t, x);
      RemoveFirstAt(t, x);
      assert IndexOf(xs, x) == j + 1;
      ConsSlices(xs, j);
    }
  }

  /** Re-attaching the head to the two slices of the tail. */
  lemma ConsSlices<T>(xs: seq<T>, j: nat)
    requires j + 1 < |xs|
    ensures [xs[0]] + (xs[1..][..j] + xs[1..][j + 1..]) == xs[..j + 1] + xs[j + 2..]
  {
    assert [xs[0]] + xs[1..][..j] == xs[..j + 1];
    assert xs[1..][j + 1..] == xs[j + 2..];
  }

  /** The remove-then-insert of the configured default model. */
  function Promote(names: seq<string>, defaultModel: string): seq<string> {
    if defaultModel != "" && defaultModel in names
    then [defaultModel] + RemoveFirst(names, defaultModel)
    else names
  }

  /** Promotion reorders and neither adds nor loses a name; a present
      default model comes first, and the other names keep their order. */
  lemma PromoteSpec(names: seq<string>, defaultModel: string)
    ensures multiset(Promote(names, defaultModel)) == multiset(names)
    ensures defaultModel != "" && defaultModel in names ==>
      var i := IndexOf(names, defaultModel);
      Promote(names, defaultModel) == [defaultModel] + names[..i] + names[i + 1..]
  {
    if defaultModel != "" && defaultModel in names {
      var i := IndexOf(names, defaultModel);
      RemoveFirstAt(names, defaultModel);
      SplitAt(names, i);
      MovedToFront(defaultModel, RemoveFirst(names, defaultModel), names[..i], names[i + 1..], names);
    }
  }

  lemma SplitAt<T>(xs: seq<T>, i: nat)
    requires i < |xs|
    ensures xs == xs[..i] + [xs[i]] + xs[i + 1..]
  {
  }

  /** Putting `d` in front of what is left when it is taken out from between
      `a` and `b` keeps the multiset. */
  lemma MovedToFront<T>(d: T, rest: seq<T>, a: seq<T>, b: seq<T>, xs: seq<T>)
    requires rest == a + b && xs == a + [d] + b
    ensures [d] + rest == [d] + a + b
    ensures multiset([d] + rest) == multiset(xs)
  {
    assert [d] + (a + b) == [d] + a + b;
  }

  /** One call of `get_ollama_models` at time `now`: the new class state and
      the list offered to the user. */
  function Refresh(c: CacheState, now: real, serverUp: bool, tags: Tags, defaultModel: string): (CacheState, seq<string>) {
    if now - c.refreshed < 1.0 then (c, c.models)
    else if !serverUp then (c.(status := ServerNotRunning, models := [NotRunningModel]), [NotRunningModel])
    else match tags
      case ListFailed => (c.(status := ConnectionFailed, models := [FetchFailedModel]), [FetchFailedModel])
      case Listed(names) =>
        var ms := Promote(names, defaultModel);
        (CacheState(Connected, ms, now), if ms != [] then ms else [NoModelsModel])
  }

  /** Within a second of a successful refresh, a second call offers the list
      the cache holds and changes no state at all. */
  lemma RefreshThrottled(c: CacheState, t1: real, t2: real, names: seq<string>, defaultModel: string,
                         up2: bool, tags2: Tags, default2: string)
    requires c.refreshed + 1.0 <= t1 <= t2 < t1 + 1.0
    ensures var (c1, _) := Refresh(c, t1, true, Listed(names), defaultModel);
      Refresh(c1, t2, up2, tags2, default2) == (c1, c1.models)
      && c1.status == Connected && c1.refreshed == t1
  {
  }

  /** An empty listing offers "No available models" once, but caches `[]`:
      a call within the next second offers the empty list. */
  lemma EmptyListingCached(c: CacheState, t1: real, t2: real, up2: bool, tags2: Tags)
    requires c.refreshed + 1.0 <= t1 <= t2 < t1 + 1.0
    ensures var (c1, offered1) := Refresh(c, t1, true, Listed([]), "");
      offered1 == [NoModelsModel] && c1.models == []
      && Refresh(c1, t2, up2, tags2, "").1 == []
  {
  }

  /** A failed refresh (server down, or listing failed) keeps the refresh
      time and offers the placeholder it caches; the next call, at any later
      time, behaves as if the failed call had not happened. */
  lemma FailureRefreshesAgain(c: CacheState, t1: real, t2: real, up1: bool, tags1: Tags, default1: string,
                              up2: bool, tags2: Tags, default2: string)
    requires c.refreshed + 1.0 <= t1 <= t2
    requires !up1 || tags1.ListFailed?
    ensures var (c1, offered1) := Refresh(c, t1, up1, tags1, default1);
      && c1.refreshed == c.refreshed
      && c1.status in {ServerNotRunning, ConnectionFailed}
      && c1.models == offered1 && |offered1| == 1 && offered1[0] in Placeholders
      && Refresh(c1, t2, up2, tags2, default2) == Refresh(c, t2, up2, tags2, default2)
  {
  }

  /** A successful refresh offers exactly the listed names, reordered with
      the default model first, or the "No available models" placeholder. */
  lemma RefreshListed(c: CacheState, now: real, names: seq<string>, defaultModel: string)
    requires c.refreshed + 1.0 <= now
    ensures var (c1, offered) := Refresh(c, now, true, Listed(names), defaultModel);
      && c1 == CacheState(Connected, c1.models, now)
      && multiset(c1.models) == multiset(names)
      && (defaultModel != "" && defaultModel in names ==> c1.models[0] == defaultModel)
      && (names != [] ==> offered == c1.models)
      && (names == [] ==> offered == [NoModelsModel])
  {
    PromoteSpec(names, defaultModel);
  }

  /** The full set of states the cache can be in: one of four statuses, and a
      refresh time that only a successful listing moves. */
  predicate KnownStatus(c: CacheState) {
    c.status in {NotConnected, ServerNotRunning, Connected, ConnectionFailed}
  }

  lemma RefreshKeepsKnownStatus(c: CacheState, now: real, serverUp: bool, tags: Tags, defaultModel: string)
    requires KnownStatus(c)
    ensures KnownStatus(Refresh(c, now, serverUp, tags, defaultModel).0)
    ensures Refresh(c, now, serverUp, tags, defaultModel).0.refreshed in {c.refreshed, now}
  {
  }

  /** `handle_error`'s message. */
  function ErrorMessage(context: string, error: string): (m: string)
    ensures StartsWith(m, "Error: ")
  {
    "Error: " + context + " - " + error
  }

  /** The shared class-level state of one node class. */
  class ModelCache {
    var status: string
    var cachedModels: seq<string>
    var lastRefreshTime: real

    function State(): CacheState
      reads this
    {
      CacheState(status, cachedModels, lastRefreshTime)
    }

    constructor()
      ensures State() == CacheState(NotConnected, [WaitingModel], 0.0)
    {
      status := NotConnected;
      cachedModels := [WaitingModel];
      lastRefreshTime := 0.0;
    }

    /** `get_ollama_models`; `serverUp` is what `check_ollama_server` finds
        at the configured URL and `tags` what the listing gives. */
    method GetModels(now: real, serverUp: bool, tags: Tags, defaultModel: string) returns (models: seq<string>)
      modifies this
      ensures (State(), models) == Refresh(old(State()), now, serverUp, tags, defaultModel)
    {
      if now - lastRefreshTime < 1.0 {
        return cachedModels;
      }
      if !serverUp {
        status := ServerNotRunning;
        cachedModels := [NotRunningModel];
        return cachedModels;
      }
      match tags {
        case ListFailed =>
          status := ConnectionFailed;
          cachedModels := [FetchFailedModel];
          models := cachedModels;
        case Listed(names) =>
          cachedModels := names;
          lastRefreshTime := now;
          status := Connected;
          if defaultModel != "" && defaultModel in cachedModels {
            cachedModels := RemoveFirst(cachedModels, defaultModel);
            cachedModels := [defaultModel] + cachedModels;
          }
          models := if cachedModels != [] then cachedModels else [NoModelsModel];
      }
    }

    /** `handle_error`: the status turns to "Connection failed". */
    method HandleError(error: string, context: string) returns (message: string)
      modifies this
      ensures State() == old(State()).(status := ConnectionFailed)
      ensures message == ErrorMessage(context, error)
    {
      status := ConnectionFailed;
      message := "Error: " + context + " - " + error;
    }
  }

  // ------------------------------------------------------------------ retry

  /** How one POST to `/api/generate` ends: a JSON object, with or without a
      string `response` field; a timeout; another `RequestException` (a
      connection error, an HTTP error status, or a body that is not JSON,
      which `requests` 2.27 and later report as its own `JSONDecodeError`);
      or any other exception (a `response` value that is not a string). */
  datatype Attempt = Replied(response: Option<string>) | TimedOut | RequestFailed(message: string) | Crashed(message: string)

  /** How the retry loop ends: with the text of a reply, or in the error
      handler with a context and an error message. */
  datatype Ending = Answered(reply: string) | Failed(context: string, error: string)

  /** The ending and the number of POSTs sent. */
  datatype Outcome = Outcome(ending: Ending, posts: nat)

  /** `s[:n]` when `s` is longer than `n`. */
  function Truncate(s: string, n: nat): (r: string)
    ensures |r| <= n && |r| <= |s| && r == s[..|r|]
    ensures |s| <= n ==> r == s
    ensures |s| >= n ==> |r| == n
  {
    if |s| > n then s[..n] else s
  }

  /** The string the node returns for an ending. */
  function Rendered(e: Ending, maxLength: nat): string {
    match e
    case Answered(text) => Truncate(CleanPrompt(text), maxLength)
    case Failed(context, error) => ErrorMessage(context, error)
  }

  /** An answer is a prefix of the cleaned reply of at most `maxLength`
      characters, with no '*', no whitespace but ' ' and none at either end;
      a failure reads "Error: {context} - {error}". */
  lemma RenderedSpec(e: Ending, maxLength: nat)
    ensures e.Answered? ==> (|Rendered(e, maxLength)| <= maxLength
      && StartsWith(CleanPrompt(e.reply), Rendered(e, maxLength))
      && AllChars(Rendered(e, maxLength), CleanChar))
    ensures e.Failed? ==> StartsWith(Rendered(e, maxLength), "Error: " + e.context + " - ")
  {
    if e.Answered? {
      var c := CleanPrompt(e.reply);
      CleanPromptTidy(e.reply);
      AllCharsSlice(c, 0, |Truncate(c, maxLength)|, CleanChar);
    }
  }

  /** How the POST of attempt `attempt`, which ended as `a`, ends the loop;
      `None` for a timeout that is retried. `reply` turns the `response`
      field into the text to clean, or the message of the exception it
      raises. */
  function EndingOf(a: Attempt, reply: Option<string> -> Result<string>, timeoutMessage: string,
                    attempt: nat): (r: Option<Ending>)
    ensures r.None? <==> a.TimedOut? && attempt < MaxRetries - 1
  {
    match a
    case Replied(field) =>
      Some(match reply(field) case Ok(text) => Answered(text) case Raise(e) => Failed("Unknown issue", e))
    case TimedOut => if attempt < MaxRetries - 1 then None else Some(Failed("Timeout", timeoutMessage))
    case RequestFailed(e) => Some(Failed("Network issue", e))
    case Crashed(e) => Some(Failed("Unknown issue", e))
  }

  /** The retry loop from attempt `attempt` on. */
  function Attempts(post: nat -> Attempt, reply: Option<string> -> Result<string>, timeoutMessage: string,
                    attempt: nat): (o: Outcome)
    requires attempt < MaxRetries
    ensures attempt < o.posts <= MaxRetries
    decreases MaxRetries - attempt
  {
    match EndingOf(post(attempt), reply, timeoutMessage, attempt)
    case None => Attempts(post, reply, timeoutMessage, attempt + 1)
    case Some(e) => Outcome(e, attempt + 1)
  }

  /** Only timeouts are retried: every POST but the last timed out, and the
      last one decides the ending (a timeout there can only be the third). */
  lemma {:induction false} AttemptsSpec(post: nat -> Attempt, reply: Option<string> -> Result<string>,
                                        timeoutMessage: string, attempt: nat)
    requires attempt < MaxRetries
    ensures var o := Attempts(post, reply, timeoutMessage, attempt);
      && (forall k | attempt <= k < o.posts - 1 :: post(k).TimedOut?)
      && EndingOf(post(o.posts - 1), reply, timeoutMessage, o.posts - 1) == Some(o.ending)
    decreases MaxRetries - attempt
  {
    if EndingOf(post(attempt), reply, timeoutMessage, attempt).None? {
      AttemptsSpec(post, reply, timeoutMessage, attempt + 1);
    }
  }

  /** `n` copies of `x`. */
  function Repeat<T>(x: T, n: nat): (r: seq<T>)
    ensures |r| == n
  {
    if n == 0 then [] else Repeat(x, n - 1) + [x]
  }

  /** The `try`/`except` body of one attempt whose POST ended as `a`: `done`
      is false only for a timeout that is retried; otherwise `text` is what
      the node returns, and an error marks the cache as failed. */
  method HandleAttempt(cache: ModelCache, a: Attempt, reply: Option<string> -> Result<string>, maxLength: nat,
                       timeoutMessage: string, attempt: nat)
    returns (done: bool, text: string)
    modifies cache
    ensures var e := EndingOf(a, reply, timeoutMessage, attempt);
      && done == e.Some?
      && (done ==> text == Rendered(e.value, maxLength))
      && cache.State() == if done && e.value.Failed? then old(cache.State()).(status := ConnectionFailed) else old(cache.State())
  {
    done := true;
    match a {
      case Replied(field) =>
        match reply(field) {
          case Ok(t) => text := Truncate(CleanPrompt(t), maxLength);
          case Raise(e) => text := cache.HandleError(e, "Unknown issue");
        }
      case TimedOut =>
        if attempt < MaxRetries - 1 {
          done, text := false, "";
        } else {
          text := cache.HandleError(timeoutMessage, "Timeout");
        }
      case RequestFailed(e) => text := cache.HandleError(e, "Network issue");
      case Crashed(e) => text := cache.HandleError(e, "Unknown issue");
    }
  }

  /** The retry loop. Every attempt sends `request`; a timeout before the
      last attempt sleeps and tries again; any other ending returns. */
  method Retry<R>(cache: ModelCache, request: R, post: nat -> Attempt, reply: Option<string> -> Result<string>,
                  maxLength: nat, timeoutMessage: string)
    returns (text: string, requests: seq<R>, sleeps: nat)
    modifies cache
    ensures var o := Attempts(post, reply, timeoutMessage, 0);
      && text == Rendered(o.ending, maxLength)
      && requests == Repeat(request, o.posts)
      && sleeps == o.posts - 1
      && cache.State() == if o.ending.Failed? then old(cache.State()).(status := ConnectionFailed) else old(cache.State())
  {
    var attempt := 0;
    requests, sleeps := [], 0;
    while true
      invariant attempt < MaxRetries
      invariant Attempts(post, reply, timeoutMessage, 0) == Attempts(post, reply, timeoutMessage, attempt)
      invariant requests == Repeat(request, attempt) && sleeps == attempt
      invariant cache.State() == old(cache.State())
      decreases MaxRetries - attempt
    {
      requests := requests + [request];
      assert requests == Repeat(request, attempt + 1);
      var done;
      done, text := HandleAttempt(cache, post(attempt), reply, maxLength, timeoutMessage, attempt);
      if done {
        return;
      }
      sleeps := sleeps + 1;
      attempt := attempt + 1;
    }
  }

  // -------------------------------------------------------- generate_prompt

  /** The JSON body of the generate request. */
  datatype Payload = Payload(model: string, prompt: string, stream: bool, temperature: real)

  datatype Request = Request(url: string, payload: Payload)

  /** `json_response.get('response', '')`. */
  function ResponseOrEmpty(field: Option<string>): Result<string> {
    Ok(if field.Some? then field.value else "")
  }

  /** `generate_prompt`. `serverUrl` is `None` when the caller passes none,
      and `configUrl` is the URL from the configuration file in that case;
      `up` tells whether the server at a URL answers `/api/version`. */
  method GeneratePrompt(cache: ModelCache, keywords: string, model: string, temperature: real, maxLength: nat,
                        serverUrl: Option<string>, configUrl: string, up: string -> bool, post: nat -> Attempt)
    returns (prompt: string, requests: seq<Request>, sleeps: nat)
    modifies cache
    ensures var url := if serverUrl.Some? then serverUrl.value else configUrl;
      && (!up(url) ==> prompt == ServerDownMessage && requests == [] && sleeps == 0 && cache.State() == old(cache.State()))
      && (up(url) && model in Placeholders ==>
            prompt == NotReadyMessage && requests == [] && sleeps == 0 && cache.State() == old(cache.State()))
      && (up(url) && model !in Placeholders ==>
            var o := Attempts(post, ResponseOrEmpty, PromptTimeoutMessage, 0);
            && prompt == Rendered(o.ending, maxLength) && sleeps == o.posts - 1
            && requests == Repeat(Request(url + "/api/generate", Payload(model, FormatPrompt(keywords), false, temperature)), o.posts)
            && cache.State() == if o.ending.Failed? then old(cache.State()).(status := ConnectionFailed) else old(cache.State()))
  {
    var url := if serverUrl.Some? then serverUrl.value else configUrl;
    if !up(url) {
      return ServerDownMessage, [], 0;
    }
    if model in Placeholders {
      return NotReadyMessage, [], 0;
    }
    var payload := Payload(model, FormatPrompt(keywords), false, temperature);
    prompt, requests, sleeps := Retry(cache, Request(url + "/api/generate", payload), post, ResponseOrEmpty, maxLength, PromptTimeoutMessage);
  }

  /** The text node treats a reply without `response` as the empty reply, so
      any reply ends the loop with an answer: it fails only on a third
      timeout, a network error or another exception. */
  lemma TextReplyAnswers(post: nat -> Attempt)
    ensures var o := Attempts(post, ResponseOrEmpty, PromptTimeoutMessage, 0);
      && (o.ending.Answered? <==> post(o.posts - 1).Replied?)
      && (o.ending.Answered? ==> o.ending.reply == (if post(o.posts - 1).response.Some? then post(o.posts - 1).response.value else ""))
  {
    AttemptsSpec(post, ResponseOrEmpty, PromptTimeoutMessage, 0);
  }
}
