/** The Ollama Vision node (WildPromptorOllamaVision.py): its own class-level
    model cache, and `generate_vision_prompt`, which sends the images with
    the formatted prompt through the same guarded three-attempt retry loop
    as the text node. Turning an image tensor into base64 PNG text is the
    parameter `encode`. */
module OllamaVision {
  import opened Wrappers
  import opened Text
  import opened PromptAI
  import opened Ollama

  const DescriptionTimeoutMessage := "Max retries reached. Unable to generate description."

  /** The JSON body of the vision generate request. */
  datatype VisionPayload = VisionPayload(model: string, prompt: string, images: seq<string>, stream: bool,
                                         temperature: real, keepAlive: string)

  datatype VisionRequest = VisionRequest(url: string, payload: VisionPayload)

  /** `result['response']`: a reply without the key raises `KeyError`, whose
      text is the quoted key. */
  function ResponseOrKeyError(field: Option<string>): Result<string> {
    if field.Some? then Ok(field.value) else Raise("'response'")
  }

  /** `f"{Keep_alive}m"`. */
  function KeepAlive(minutes: int): string {
    IntToString(minutes) + "m"
  }

  /** The minutes of a `keep_alive` field: digits followed by "m". */
  function MinutesOf(field: string): Option<nat> {
    if |field| >= 2 && field[|field| - 1] == 'm'
       && forall i | 0 <= i < |field| - 1 :: '0' <= field[i] <= '9'
    then Some(DigitsValue(field[..|field| - 1]))
    else None
  }

  /** The field gives back the number of minutes it was made from. */
  lemma KeepAliveRoundTrip(minutes: nat)
    ensures MinutesOf(KeepAlive(minutes)) == Some(minutes)
  {
    var f := KeepAlive(minutes);
    assert f[..|f| - 1] == NatToString(minutes);
    NatToStringValue(minutes);
  }

  /** One base64 string per image, in order. */
  function Encoded<I>(images: seq<I>, encode: I -> string): (r: seq<string>)
    ensures |r| == |images|
  {
    seq(|images|, k requires 0 <= k < |images| => encode(images[k]))
  }

  /** The `images_b64` loop. */
  method EncodeImages<I>(images: seq<I>, encode: I -> string) returns (imagesB64: seq<string>)
    ensures imagesB64 == Encoded(images, encode)
  {
    imagesB64 := [];
    for i := 0 to |images|
      invariant |imagesB64| == i
      invariant forall k | 0 <= k < i :: imagesB64[k] == encode(images[k])
    {
      imagesB64 := imagesB64 + [encode(images[i])];
    }
  }

  /** `get_ollama_models` of the vision node: the text node's transitions
      with no default model, on the vision node's own cache. */
  method GetVisionModels(cache: ModelCache, now: real, serverUp: bool, tags: Tags) returns (models: seq<string>)
    modifies cache
    ensures (cache.State(), models) == Refresh(old(cache.State()), now, serverUp, tags, "")
  {
    models := cache.GetModels(now, serverUp, tags, "");
  }

  /** Without a default model a successful listing is cached as listed. */
  lemma VisionListingKeepsOrder(c: CacheState, now: real, names: seq<string>)
    requires c.refreshed + 1.0 <= now
    ensures Refresh(c, now, true, Listed(names), "").0 == CacheState(Connected, names, now)
  {
  }

  /** `generate_vision_prompt`. An empty `serverUrl` stands for the URL of
      the configuration file, `configUrl`. */
  method GenerateVisionPrompt<I>(cache: ModelCache, images: seq<I>, encode: I -> string, prompt: string, model: string,
                                 temperature: real, maxLength: nat, serverUrl: string, configUrl: string, keepAlive: int,
                                 up: string -> bool, post: nat -> Attempt)
    returns (description: string, requests: seq<VisionRequest>, sleeps: nat)
    modifies cache
    ensures var url := if serverUrl != "" then serverUrl else configUrl;
      && (!up(url) ==> description == ServerDownMessage && requests == [] && sleeps == 0 && cache.State() == old(cache.State()))
      && (up(url) && model in Placeholders ==>
            description == NotReadyMessage && requests == [] && sleeps == 0 && cache.State() == old(cache.State()))
      && (up(url) && model !in Placeholders ==>
            var o := Attempts(post, ResponseOrKeyError, DescriptionTimeoutMessage, 0);
            var payload := VisionPayload(model, FormatPrompt(prompt), Encoded(images, encode), false, temperature, KeepAlive(keepAlive));
            && description == Rendered(o.ending, maxLength) && sleeps == o.posts - 1
            && requests == Repeat(VisionRequest(url + "/api/generate", payload), o.posts)
            && cache.State() == if o.ending.Failed? then old(cache.State()).(status := ConnectionFailed) else old(cache.State()))
  {
    var url := if serverUrl != "" then serverUrl else configUrl;
    if !up(url) {
      return ServerDownMessage, [], 0;
    }
    if model in Placeholders {
      return NotReadyMessage, [], 0;
    }
    var imagesB64 := EncodeImages(images, encode);
    var payload := VisionPayload(model, FormatPrompt(prompt), imagesB64, false, temperature, KeepAlive(keepAlive));
    description, requests, sleeps := Retry(cache, VisionRequest(url + "/api/generate", payload), post, ResponseOrKeyError,
                                           maxLength, DescriptionTimeoutMessage);
  }

  /** A reply without `response` ends the loop at once in the error handler,
      as an unknown issue naming the key. */
  lemma MissingResponseFails(post: nat -> Attempt)
    ensures var o := Attempts(post, ResponseOrKeyError, DescriptionTimeoutMessage, 0);
      post(o.posts - 1) == Replied(None) ==> o.ending == Failed("Unknown issue", "'response'")
    ensures var o := Attempts(post, ResponseOrKeyError, DescriptionTimeoutMessage, 0);
      o.ending.Answered? <==> post(o.posts - 1).Replied? && post(o.posts - 1).response.Some?
  {
    AttemptsSpec(post, ResponseOrKeyError, DescriptionTimeoutMessage, 0);
  }
}
