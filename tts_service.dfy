/**
 * The text-to-speech service (backend/app/services/tts_service.py): it registers the
 * providers whose constructors succeed, orders them for a request, adjusts the request
 * for each one, and falls back from provider to provider until one synthesizes.
 *
 * The configured primary provider, the fallback list and the enabled flag are read from
 * settings the settings class does not declare, so they are constructor parameters; which
 * provider constructors raise is a parameter too. Each synthesis attempt is an oracle
 * `attempt(i, name, request)`, and the time it took is `elapsed(i)`.
 */
module TtsService {
  import opened Wrappers
  import opened Strings
  import opened TtsBase
  import opened TtsProviders
  import TtsGemini

  /** The provider classes, in the order `_initialize_providers` tries them. */
  const Candidates: seq<string> := ["google", "minimax", "gemini", "elevenlabs"]

  /** `[p for p in names if p in allowed]` */
  function Keep(names: seq<string>, allowed: set<string>): (r: seq<string>)
    ensures |r| <= |names|
    ensures forall x :: x in r <==> x in names && x in allowed
  {
    if names == [] then []
    else Keep(names[..|names| - 1], allowed) + (if names[|names| - 1] in allowed then [names[|names| - 1]] else [])
  }

  /** The names registered when the constructors of `failing` raise. */
  function Registered(failing: set<string>): seq<string> {
    Keep(Candidates, {"google", "minimax", "gemini", "elevenlabs"} - failing)
  }

  /** The providers that can be registered are the candidates whose constructors succeed,
      each once, in candidate order. */
  lemma RegisteredSpec(failing: set<string>)
    ensures forall x :: x in Registered(failing) <==> x in Candidates && x !in failing
    ensures Registered(failing) == [] <==> {"google", "minimax", "gemini", "elevenlabs"} <= failing
    ensures forall i, j :: 0 <= i < j < |Registered(failing)| ==> Registered(failing)[i] != Registered(failing)[j]
  {
    CandidatesDistinct();
    KeepDistinct(Candidates, {"google", "minimax", "gemini", "elevenlabs"} - failing);
    RegisteredEmpty(failing);
  }

  lemma CandidatesDistinct()
    ensures Distinct(Candidates)
  {
    assert Candidates[0] == "google" && Candidates[1] == "minimax" && Candidates[2] == "gemini" && Candidates[3] == "elevenlabs";
  }

  lemma RegisteredEmpty(failing: set<string>)
    ensures Registered(failing) == [] <==> {"google", "minimax", "gemini", "elevenlabs"} <= failing
  {
    var r := Registered(failing);
    if r != [] {
      assert r[0] in r;
    } else {
      assert Candidates[0] in Candidates && Candidates[1] in Candidates;
      assert Candidates[2] in Candidates && Candidates[3] in Candidates;
    }
  }

  predicate Distinct(s: seq<string>) {
    forall i, j :: 0 <= i < j < |s| ==> s[i] != s[j]
  }

  lemma {:induction false} KeepDistinct(names: seq<string>, allowed: set<string>)
    requires Distinct(names)
    ensures Distinct(Keep(names, allowed))
  {
    if names != [] {
      var init := names[..|names| - 1];
      assert Distinct(init);
      KeepDistinct(init, allowed);
      assert names[|names| - 1] !in init;
    }
  }

  /** The primary after `_initialize_providers`: the configured one if it is registered,
      else the first registered one, else unchanged. */
  function Primary(configured: string, providers: seq<string>): string {
    if configured in providers then configured
    else if providers != [] then providers[0]
    else configured
  }

  /** Whenever anything is registered, the primary is registered; it is the configured one
      exactly when that one is registered (or nothing is). */
  lemma PrimarySpec(configured: string, providers: seq<string>)
    ensures providers != [] ==> Primary(configured, providers) in providers
    ensures Primary(configured, providers) == configured <==> configured in providers || providers == [] || providers[0] == configured
  {
  }

  // ---------------------------------------------------------------------------
  // Ordering

  /** `_get_provider_order`: a registered, non-empty preferred name first, then the
      primary and the fallbacks in configuration order, without the preferred name and
      without unregistered names. */
  function ProviderOrder(preferred: Option<string>, primary: string, fallbacks: seq<string>, providers: seq<string>)
    : seq<string>
  {
    var registered := set p | p in providers;
    if preferred.Some? && preferred.value != "" && preferred.value in providers then
      [preferred.value] + Keep([primary] + fallbacks, registered - {preferred.value})
    else Keep([primary] + fallbacks, registered)
  }

  /** Whether `preferred` is honoured. */
  predicate Honoured(preferred: Option<string>, providers: seq<string>) {
    preferred.Some? && preferred.value != "" && preferred.value in providers
  }

  /** Only registered names are tried; a name is tried exactly when it is registered and
      configured or honoured as preferred; an honoured preferred name comes first and never
      again. */
  lemma ProviderOrderSpec(preferred: Option<string>, primary: string, fallbacks: seq<string>, providers: seq<string>)
    ensures var order := ProviderOrder(preferred, primary, fallbacks, providers);
      && (forall x :: x in order ==> x in providers)
      && (forall x :: x in order <==> x in providers && (x in [primary] + fallbacks || (Honoured(preferred, providers) && x == preferred.value)))
      && (Honoured(preferred, providers) ==> order[0] == preferred.value && preferred.value !in order[1..])
  {
    var order := ProviderOrder(preferred, primary, fallbacks, providers);
    if Honoured(preferred, providers) {
      assert order[1..] == Keep([primary] + fallbacks, (set p | p in providers) - {preferred.value});
    }
  }

  /** Without an honoured preference the order is the configuration filtered to the
      registered names, duplicates included. */
  lemma UnpreferredOrder(preferred: Option<string>, primary: string, fallbacks: seq<string>, providers: seq<string>)
    requires !Honoured(preferred, providers)
    requires forall x :: x in [primary] + fallbacks ==> x in providers
    ensures ProviderOrder(preferred, primary, fallbacks, providers) == [primary] + fallbacks
  {
    KeepAll([primary] + fallbacks, set p | p in providers);
  }

  lemma {:induction false} KeepNothing(names: seq<string>)
    ensures Keep(names, {}) == []
  {
    if names != [] {
      KeepNothing(names[..|names| - 1]);
    }
  }

  lemma {:induction false} KeepAll(names: seq<string>, allowed: set<string>)
    requires forall x :: x in names ==> x in allowed
    ensures Keep(names, allowed) == names
  {
    if names != [] {
      KeepAll(names[..|names| - 1], allowed);
      assert names[..|names| - 1] + [names[|names| - 1]] == names;
    }
  }

  // ---------------------------------------------------------------------------
  // Per-provider parameters

  /** The caller's parameters; a missing or empty voice and a missing or zero sample rate
      are filled in per provider. */
  datatype Params = Params(
    voice: Option<string>, languageCode: string, rate: real, pitch: real, volume: real,
    format: string, sampleRate: Option<int>)

  /** `default_voices.get(name, "default")` */
  function DefaultVoiceFor(name: string): string {
    if name == "minimax" then "female_1"
    else if name == "elevenlabs" then "Bella"
    else if name == "google" then "ja-JP-Neural2-B"
    else "default"
  }

  /** `default_sample_rates.get(name, 22050)` */
  function DefaultSampleRateFor(name: string): int {
    if name == "minimax" then 24000
    else if name == "elevenlabs" then 22050
    else if name == "google" then 24000
    else 22050
  }

  /** `_adjust_parameters_for_provider` */
  function Adjust(name: string, text: string, p: Params): Request {
    var voice := if p.voice.Some? && p.voice.value != "" then p.voice.value else DefaultVoiceFor(name);
    var rate := if p.sampleRate.Some? && p.sampleRate.value != 0 then p.sampleRate.value else DefaultSampleRateFor(name);
    var speed :=
      if name == "minimax" then Clamp(p.rate, 0.5, 2.0)
      else if name == "elevenlabs" || name == "google" then Clamp(p.rate, 0.25, 4.0)
      else p.rate;
    Request(text, voice, p.languageCode, speed, p.pitch, p.volume, p.format, rate)
  }

  /** The adjusted request keeps the text, language, pitch, volume and format; a given
      voice and sample rate are kept, missing ones take the provider's default; the rate is
      clamped to [0.5, 2] for MiniMax, to [0.25, 4] for ElevenLabs and Google, and left
      alone for any other provider. */
  lemma AdjustSpec(name: string, text: string, p: Params)
    ensures var r := Adjust(name, text, p);
      && r.text == text && r.languageCode == p.languageCode && r.pitch == p.pitch
      && r.volume == p.volume && r.format == p.format
      && (p.voice.Some? && p.voice.value != "" ==> r.voiceId == p.voice.value)
      && (p.voice.None? || p.voice.value == "" ==> r.voiceId == DefaultVoiceFor(name))
      && (p.sampleRate.Some? && p.sampleRate.value != 0 ==> r.sampleRate == p.sampleRate.value)
      && (p.sampleRate.None? || p.sampleRate.value == 0 ==> r.sampleRate == DefaultSampleRateFor(name))
      && (name == "minimax" ==> 0.5 <= r.rate <= 2.0 && (0.5 <= p.rate <= 2.0 ==> r.rate == p.rate))
      && (name == "elevenlabs" || name == "google" ==> 0.25 <= r.rate <= 4.0 && (0.25 <= p.rate <= 4.0 ==> r.rate == p.rate))
      && (name !in {"minimax", "elevenlabs", "google"} ==> r.rate == p.rate)
  {
  }

  /** The service's default voices reach the providers as follows: MiniMax and Google know
      theirs, but ElevenLabs does not know "Bella" and quietly uses its own default. */
  lemma DefaultVoicesReachProviders()
    ensures ChooseVoice(MiniMax, DefaultVoiceFor("minimax")) == "female_1"
    ensures ChooseVoice(Google, DefaultVoiceFor("google")) == "ja-JP-Neural2-B"
    ensures DefaultVoiceFor("elevenlabs") !in Voices(ElevenLabs)
    ensures ChooseVoice(ElevenLabs, DefaultVoiceFor("elevenlabs")) == DefaultVoice(ElevenLabs)
  {
  }

  // ---------------------------------------------------------------------------
  // Fallback

  /** `provider_order.index(name)`: the first position of `name`. */
  function FirstIndex(s: seq<string>, name: string): (i: nat)
    requires name in s
    ensures i < |s| && s[i] == name && name !in s[..i]
  {
    if s[0] == name then 0 else 1 + FirstIndex(s[1..], name)
  }

  /** The successful result with the service's statistics merged into its metadata. */
  function Stamped(res: SynthesisResult, t: real, order: seq<string>, name: string): SynthesisResult
    requires name in order
  {
    res.(metadata := res.metadata["synthesis_time" := MNum(t)]
      ["attempted_providers" := MNames(order[..FirstIndex(order, name) + 1])]
      ["successful_provider" := MStr(name)])
  }

  /** The statistics: the time, the successful provider and the order up to its first
      position; everything else in the result is as the provider returned it. */
  lemma StampedSpec(res: SynthesisResult, t: real, order: seq<string>, i: nat)
    requires i < |order|
    ensures var s := Stamped(res, t, order, order[i]);
      && s.(metadata := res.metadata) == res
      && s.metadata["synthesis_time"] == MNum(t)
      && s.metadata["successful_provider"] == MStr(order[i])
      && s.metadata.Keys == res.metadata.Keys + {"synthesis_time", "attempted_providers", "successful_provider"}
      && (forall k :: k in res.metadata && k !in {"synthesis_time", "attempted_providers", "successful_provider"} ==> s.metadata[k] == res.metadata[k])
      && (order[i] !in order[..i] ==> s.metadata["attempted_providers"] == MNames(order[..i + 1]))
  {
  }

  /** The exception's text after "All TTS providers failed. Last error: " (`None` when no
      provider was tried). */
  function AllFailed(last: Option<Error>): Error {
    RuntimeError("All TTS providers failed. Last error: " + (if last.None? then "None" else Message(last.value)))
  }

  /** The outcome of trying `order[i]`. */
  function Tried(order: seq<string>, i: nat, text: string, p: Params, attempt: (nat, string, Request) -> Result<SynthesisResult, Error>)
    : Result<SynthesisResult, Error>
    requires i < |order|
  {
    attempt(i, order[i], Adjust(order[i], text, p))
  }

  /** The loop from position `i` on, with `last` the error of the latest failure. */
  function Attempts(order: seq<string>, i: nat, providers: seq<string>, text: string, p: Params,
                    attempt: (nat, string, Request) -> Result<SynthesisResult, Error>, elapsed: nat -> real,
                    last: Option<Error>): Result<SynthesisResult, Error>
    requires i <= |order|
    decreases |order| - i
  {
    if i == |order| then Failure(AllFailed(last))
    else if order[i] !in providers then Attempts(order, i + 1, providers, text, p, attempt, elapsed, last)
    else
      var r := Tried(order, i, text, p, attempt);
      if r.Success? then Success(Stamped(r.value, elapsed(i), order, order[i]))
      else Attempts(order, i + 1, providers, text, p, attempt, elapsed, Some(r.error))
  }

  /** What `synthesize_text` returns or raises. */
  function Synthesis(enabled: bool, providers: seq<string>, primary: string, fallbacks: seq<string>,
                     text: string, p: Params, preferred: Option<string>,
                     attempt: (nat, string, Request) -> Result<SynthesisResult, Error>, elapsed: nat -> real)
    : Result<SynthesisResult, Error>
  {
    if !enabled then Failure(RuntimeError("TTS service is disabled"))
    else if Strip(text) == [] then Failure(ValueError("Text cannot be empty"))
    else Attempts(ProviderOrder(preferred, primary, fallbacks, providers), 0, providers, text, p, attempt, elapsed, None)
  }

  /** A disabled service and a blank text are refused before any provider is tried: the
      outcome does not depend on the providers at all. */
  lemma RefusedBeforeTrying(enabled: bool, providers: seq<string>, primary: string, fallbacks: seq<string>,
                            text: string, p: Params, preferred: Option<string>,
                            attempt: (nat, string, Request) -> Result<SynthesisResult, Error>, elapsed: nat -> real,
                            attempt2: (nat, string, Request) -> Result<SynthesisResult, Error>, elapsed2: nat -> real)
    requires !enabled || Strip(text) == []
    ensures Synthesis(enabled, providers, primary, fallbacks, text, p, preferred, attempt, elapsed)
         == Synthesis(enabled, providers, primary, fallbacks, text, p, preferred, attempt2, elapsed2)
    ensures !enabled ==>
      Synthesis(enabled, providers, primary, fallbacks, text, p, preferred, attempt, elapsed) == Failure(RuntimeError("TTS service is disabled"))
    ensures enabled ==>
      Synthesis(enabled, providers, primary, fallbacks, text, p, preferred, attempt, elapsed) == Failure(ValueError("Text cannot be empty"))
  {
  }

  /** From position `k` on, when every name is registered: the loop raises exactly when
      every attempt fails, and then with the error of the last attempt. */
  lemma {:induction false} AttemptsFail(order: seq<string>, k: nat, providers: seq<string>, text: string, p: Params,
                                        attempt: (nat, string, Request) -> Result<SynthesisResult, Error>,
                                        elapsed: nat -> real, last: Option<Error>)
    requires k <= |order|
    requires forall x :: x in order ==> x in providers
    ensures var r := Attempts(order, k, providers, text, p, attempt, elapsed, last);
      && (r.Failure? <==> forall j :: k <= j < |order| ==> Tried(order, j, text, p, attempt).Failure?)
      && (r.Failure? ==> r.error == AllFailed(if k < |order| then Some(Tried(order, |order| - 1, text, p, attempt).error) else last))
    decreases |order| - k
  {
    if k < |order| {
      assert order[k] in providers;
      var r := Tried(order, k, text, p, attempt);
      if r.Failure? {
        AttemptsFail(order, k + 1, providers, text, p, attempt, elapsed, Some(r.error));
      }
    }
  }

  /** The first successful attempt from position `k` on. */
  predicate FirstSuccess(order: seq<string>, k: nat, i: nat, text: string, p: Params,
                         attempt: (nat, string, Request) -> Result<SynthesisResult, Error>)
  {
    k <= i < |order| && Tried(order, i, text, p, attempt).Success?
    && forall j :: k <= j < i ==> Tried(order, j, text, p, attempt).Failure?
  }

  /** From position `k` on, when every name is registered: a success is the first
      successful attempt, stamped. */
  lemma {:induction false} AttemptsSucceed(order: seq<string>, k: nat, providers: seq<string>, text: string, p: Params,
                                           attempt: (nat, string, Request) -> Result<SynthesisResult, Error>,
                                           elapsed: nat -> real, last: Option<Error>)
    requires k <= |order|
    requires forall x :: x in order ==> x in providers
    requires Attempts(order, k, providers, text, p, attempt, elapsed, last).Success?
    ensures exists i: nat ::
      (FirstSuccess(order, k, i, text, p, attempt) &&
       Attempts(order, k, providers, text, p, attempt, elapsed, last).value == Stamped(Tried(order, i, text, p, attempt).value, elapsed(i), order, order[i]))
    decreases |order| - k
  {
    assert order[k] in providers;
    var r := Tried(order, k, text, p, attempt);
    if r.Success? {
      assert FirstSuccess(order, k, k, text, p, attempt);
    } else {
      AttemptsSucceed(order, k + 1, providers, text, p, attempt, elapsed, Some(r.error));
      var i: nat :| FirstSuccess(order, k + 1, i, text, p, attempt)
        && Attempts(order, k + 1, providers, text, p, attempt, elapsed, Some(r.error)).value == Stamped(Tried(order, i, text, p, attempt).value, elapsed(i), order, order[i]);
      assert FirstSuccess(order, k, i, text, p, attempt);
    }
  }

  /** `synthesize_text` on an enabled service and a non-blank text: the providers are tried
      in order, the first success is returned with its statistics, and if every attempt
      fails (or none is made) the error of the last one is reported. */
  lemma FallbackSpec(providers: seq<string>, primary: string, fallbacks: seq<string>,
                     text: string, p: Params, preferred: Option<string>,
                     attempt: (nat, string, Request) -> Result<SynthesisResult, Error>, elapsed: nat -> real)
    requires Strip(text) != []
    ensures var order := ProviderOrder(preferred, primary, fallbacks, providers);
      var r := Synthesis(true, providers, primary, fallbacks, text, p, preferred, attempt, elapsed);
      && (r.Success? <==> exists i :: 0 <= i < |order| && Tried(order, i, text, p, attempt).Success?)
      && (r.Failure? ==> r.error == AllFailed(if order == [] then None else Some(Tried(order, |order| - 1, text, p, attempt).error)))
      && (r.Success? ==>
            exists i: nat :: (FirstSuccess(order, 0, i, text, p, attempt) &&
            r.value == Stamped(Tried(order, i, text, p, attempt).value, elapsed(i), order, order[i])))
  {
    var order := ProviderOrder(preferred, primary, fallbacks, providers);
    ProviderOrderSpec(preferred, primary, fallbacks, providers);
    AttemptsFail(order, 0, providers, text, p, attempt, elapsed, None);
    if Synthesis(true, providers, primary, fallbacks, text, p, preferred, attempt, elapsed).Success? {
      AttemptsSucceed(order, 0, providers, text, p, attempt, elapsed, None);
    }
  }

  /** With nothing registered there is nothing to try, and the error reads "None". */
  lemma NothingRegistered(primary: string, fallbacks: seq<string>, text: string, p: Params, preferred: Option<string>,
                          attempt: (nat, string, Request) -> Result<SynthesisResult, Error>, elapsed: nat -> real)
    requires Strip(text) != []
    ensures Synthesis(true, [], primary, fallbacks, text, p, preferred, attempt, elapsed)
         == Failure(RuntimeError("All TTS providers failed. Last error: None"))
  {
    var o := ProviderOrder(preferred, primary, fallbacks, []);
    assert (set x: string | x in []) == {};
    KeepNothing([primary] + fallbacks);
    assert Attempts(o, 0, [], text, p, attempt, elapsed, None) == Failure(AllFailed(None));
    assert "All TTS providers failed. Last error: " + "None" == "All TTS providers failed. Last error: None";
  }

  // ---------------------------------------------------------------------------
  // Voices

  /** The voices a registered provider lists: the catalogues of MiniMax, ElevenLabs and
      Google, and Gemini's list. */
  function ProviderVoices(name: string, lang: Option<string>): Result<seq<VoiceInfo>, Error> {
    if name == "minimax" then Success(CatalogueVoices(MiniMax, lang))
    else if name == "elevenlabs" then Success(CatalogueVoices(ElevenLabs, lang))
    else if name == "google" then Success(CatalogueVoices(Google, lang))
    else if name == "gemini" then TtsGemini.AvailableVoices(lang)
    else Success([])
  }

  function CatalogueVoices(p: Provider, lang: Option<string>): seq<VoiceInfo> {
    CatalogueShape(p);
    VoicesFor(p, VoiceOrder(p), lang)
  }

  /** `providers_to_check` */
  function ToCheck(providerName: Option<string>, providers: seq<string>): seq<string> {
    if providerName.Some? && providerName.value != "" && providerName.value in providers then [providerName.value]
    else providers
  }

  /** The dictionary the loop builds: each name's voices, or [] when listing them raised. */
  function VoicesByProvider(names: seq<string>, lang: Option<string>): map<string, seq<VoiceInfo>> {
    if names == [] then map[]
    else
      var name := names[|names| - 1];
      var vs := ProviderVoices(name, lang);
      VoicesByProvider(names[..|names| - 1], lang)[name := if vs.Success? then vs.value else []]
  }

  /** One more name adds its entry, or overwrites it when the name came before. */
  lemma VoicesByProviderStep(names: seq<string>, i: nat, lang: Option<string>)
    requires i < |names|
    ensures var vs := ProviderVoices(names[i], lang);
      VoicesByProvider(names[..i + 1], lang) == VoicesByProvider(names[..i], lang)[names[i] := if vs.Success? then vs.value else []]
  {
    assert names[..i + 1][..i] == names[..i];
  }

  /** Every checked provider has an entry; Gemini's is always empty, since its listing
      raises; the catalogue providers' entries are their catalogues. */
  lemma {:induction false} VoicesByProviderSpec(names: seq<string>, lang: Option<string>)
    ensures VoicesByProvider(names, lang).Keys == set x | x in names
    ensures "gemini" in names ==> VoicesByProvider(names, lang)["gemini"] == []
    ensures "google" in names ==> VoicesByProvider(names, lang)["google"] == CatalogueVoices(Google, lang)
  {
    if names != [] {
      var init := names[..|names| - 1];
      VoicesByProviderSpec(init, lang);
      assert names == init + [names[|names| - 1]];
      TtsGemini.AsWrittenListsNoVoices(lang);
    }
  }

  /** The service: its registered providers (by name, in registration order), its primary
      and fallback providers, and whether it is enabled. */
  class Service {
    var providers: seq<string>
    var primary: string
    var fallbacks: seq<string>
    var enabled: bool

    /** `__init__` and `_initialize_providers` */
    constructor (primary: string, fallbacks: seq<string>, enabled: bool, failing: set<string>)
      ensures this.providers == Registered(failing)
      ensures this.primary == Primary(primary, Registered(failing))
      ensures this.fallbacks == fallbacks
      ensures this.enabled == (enabled && Registered(failing) != [])
    {
      var registered: seq<string> := [];
      var i := 0;
      while i < |Candidates|
        invariant 0 <= i <= |Candidates|
        invariant registered == Keep(Candidates[..i], {"google", "minimax", "gemini", "elevenlabs"} - failing)
      {
        var name := Candidates[i];
        if name !in failing {
          registered := registered + [name];
        }
        assert Candidates[..i + 1][..i] == Candidates[..i];
        i := i + 1;
      }
      assert Candidates[..i] == Candidates;
      this.providers := registered;
      this.fallbacks := fallbacks;
      this.enabled := enabled;
      this.primary := primary;
      if registered == [] {
        this.enabled := false;
      }
      if primary !in registered {
        if registered != [] {
          this.primary := registered[0];
        } else {
          this.enabled := false;
        }
      }
    }

    /** `synthesize_text` */
    method SynthesizeText(text: string, p: Params, preferred: Option<string>,
                          attempt: (nat, string, Request) -> Result<SynthesisResult, Error>, elapsed: nat -> real)
      returns (r: Result<SynthesisResult, Error>)
      ensures r == Synthesis(enabled, providers, primary, fallbacks, text, p, preferred, attempt, elapsed)
    {
      if !enabled {
        return Failure(RuntimeError("TTS service is disabled"));
      }
      if Strip(text) == [] {
        return Failure(ValueError("Text cannot be empty"));
      }
      var order := ProviderOrder(preferred, primary, fallbacks, providers);
      var last: Option<Error> := None;
      var i := 0;
      while i < |order|
        invariant 0 <= i <= |order|
        invariant Attempts(order, 0, providers, text, p, attempt, elapsed, None)
               == Attempts(order, i, providers, text, p, attempt, elapsed, last)
      {
        var name := order[i];
        if name in providers {
          var res := attempt(i, name, Adjust(name, text, p));
          if res.Success? {
            return Success(Stamped(res.value, elapsed(i), order, name));
          }
          last := Some(res.error);
        }
        i := i + 1;
      }
      r := Failure(AllFailed(last));
    }

    /** `get_available_voices` */
    method GetAvailableVoices(providerName: Option<string>, lang: Option<string>)
      returns (r: map<string, seq<VoiceInfo>>)
      ensures r == VoicesByProvider(ToCheck(providerName, providers), lang)
    {
      var names := ToCheck(providerName, providers);
      r := map[];
      var i := 0;
      while i < |names|
        invariant 0 <= i <= |names|
        invariant r == VoicesByProvider(names[..i], lang)
      {
        var vs := ProviderVoices(names[i], lang);
        r := r[names[i] := if vs.Success? then vs.value else []];
        VoicesByProviderStep(names, i, lang);
        i := i + 1;
      }
      assert names[..i] == names;
    }
  }
}
