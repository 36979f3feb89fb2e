/**
 * The shared part of the text-to-speech providers (backend/app/providers/tts/base.py):
 * the value types every provider returns, the default text check, the sentence splitter
 * and the default duration estimate. Durations are real numbers.
 */
module TtsBase {
  import opened Wrappers
  import opened Strings

  /** `VoiceInfo`; the free-form `metadata` field is not modelled. */
  datatype VoiceInfo = VoiceInfo(
    voiceId: string, name: string, languageCode: string, gender: string,
    description: Option<string>, sampleRate: Option<int>)

  /** `SentenceTimestamp`: a sentence and where it sits in the audio, in seconds. */
  datatype SentenceTimestamp = SentenceTimestamp(text: string, start: real, end: real, confidence: Option<real>)

  /** The values stored in a result's metadata dictionary. */
  datatype Meta = MStr(s: string) | MNum(x: real) | MNames(names: seq<string>)

  datatype SynthesisResult = SynthesisResult(
    audio: seq<bv8>, format: string, sampleRate: int, duration: real, text: string,
    voice: VoiceInfo, sentences: seq<SentenceTimestamp>, metadata: map<string, Meta>)

  /** The keyword arguments of a provider's `synthesize`. */
  datatype Request = Request(
    text: string, voiceId: string, languageCode: string, rate: real, pitch: real, volume: real,
    format: string, sampleRate: int)

  /** The exceptions a synthesis can raise; each carries `str(e)`. */
  datatype Error = ValueError(msg: string) | RuntimeError(msg: string) | TypeError(msg: string) | ZeroDivision(msg: string)

  /** Python's `str(e)` for an exception. */
  function Message(e: Error): string {
    e.msg
  }

  /** The message of a float division by zero. */
  const DivisionByZero: string := "float division by zero"

  /** `max(lo, min(hi, x))` */
  function Clamp(x: real, lo: real, hi: real): (r: real)
    requires lo <= hi
    ensures lo <= r <= hi
    ensures lo <= x <= hi ==> r == x
    ensures x < lo ==> r == lo
    ensures x > hi ==> r == hi
  {
    if hi < x then hi else if x < lo then lo else x
  }

  /** `SynthesisResult(...)`: absent sentences become [] and absent metadata {}
      (`sentences or []`, `metadata or {}`). */
  function NewSynthesisResult(
    audio: seq<bv8>, format: string, sampleRate: int, duration: real, text: string, voice: VoiceInfo,
    sentences: Option<seq<SentenceTimestamp>>, metadata: Option<map<string, Meta>>): (r: SynthesisResult)
    ensures r.audio == audio && r.format == format && r.sampleRate == sampleRate
    ensures r.duration == duration && r.text == text && r.voice == voice
    ensures sentences.None? ==> r.sentences == []
    ensures sentences.Some? ==> r.sentences == sentences.value
    ensures metadata.None? ==> r.metadata == map[]
    ensures metadata.Some? ==> r.metadata == metadata.value
  {
    SynthesisResult(audio, format, sampleRate, duration, text, voice,
      sentences.GetOr([]), metadata.GetOr(map[]))
  }

  /** The keyword names a constructor accepts: the required ones and the optional ones. */
  datatype Signature = Signature(required: set<string>, optional: set<string>)

  const SynthesisResultSignature: Signature := Signature(
    {"audio_data", "audio_format", "sample_rate_hertz", "duration_seconds", "text", "voice_info"},
    {"sentences", "metadata"})

  const VoiceInfoSignature: Signature := Signature(
    {"voice_id", "name", "language_code", "gender"},
    {"description", "sample_rate_hertz", "metadata"})

  /** Calling a constructor with the keywords `given`: an unknown keyword or a missing
      required one raises TypeError before the object exists. */
  function Call(sig: Signature, given: set<string>): (r: Option<Error>)
    ensures r.None? <==> sig.required <= given && given <= sig.required + sig.optional
    ensures r.Some? ==> r.value.TypeError?
  {
    if given - (sig.required + sig.optional) != {} then Some(TypeError("unexpected keyword argument"))
    else if sig.required - given != {} then Some(TypeError("missing required argument"))
    else None
  }

  /** The base `validate_text`: some non-blank character and at most 5000 characters. */
  predicate ValidText(text: string) {
    !AllSpace(text) && |text| <= 5000
  }

  /** `validate_text`; blank covers the empty text. */
  function ValidateText(text: string): (ok: bool)
    ensures ok <==> Strip(text) != [] && |text| <= 5000
    ensures ok ==> text != []
  {
    if Strip(text) == [] then false
    else if |text| > 5000 then false
    else true
  }

  // ---------------------------------------------------------------------------
  // Sentence splitting: `re.split(r'[。！？\.!?]+', text)`, then strip and drop empties.

  predicate IsSentenceEnd(c: char) {
    c == '。' || c == '！' || c == '？' || c == '.' || c == '!' || c == '?'
  }

  predicate HasSentenceEnd(s: string) {
    exists i :: 0 <= i < |s| && IsSentenceEnd(s[i])
  }

  /** The pieces between single delimiter characters. A run of delimiters, which the
      pattern consumes as one separator, gives extra empty pieces here; those are
      dropped with every other blank piece, so the sentences are the same. */
  function Pieces(s: string): (r: seq<string>)
    ensures |r| >= 1
  {
    if s == [] then [""]
    else
      var rest := Pieces(s[1..]);
      if IsSentenceEnd(s[0]) then [""] + rest
      else [[s[0]] + rest[0]] + rest[1..]
  }

  /** No piece holds a delimiter. */
  lemma {:induction false} PiecesUndelimited(s: string)
    ensures forall k :: 0 <= k < |Pieces(s)| ==> !HasSentenceEnd(Pieces(s)[k])
    decreases |s|
  {
    if s != [] {
      PiecesUndelimited(s[1..]);
      var rest := Pieces(s[1..]);
      if !IsSentenceEnd(s[0]) {
        var head := [s[0]] + rest[0];
        assert !HasSentenceEnd(head) by {
          forall i | 0 <= i < |head| ensures !IsSentenceEnd(head[i]) {
            if i > 0 {
              assert head[i] == rest[0][i - 1];
            }
          }
        }
      }
    }
  }

  /** `[p.strip() for p in pieces if p.strip()]` */
  function Clean(ps: seq<string>): (r: seq<string>)
    ensures |r| <= |ps|
  {
    if ps == [] then []
    else if Strip(ps[0]) == [] then Clean(ps[1..])
    else [Strip(ps[0])] + Clean(ps[1..])
  }

  /** `split_text_into_sentences` */
  function SplitSentences(text: string): (r: seq<string>)
  {
    Clean(Pieces(text))
  }

  /** The characters of `s` other than the delimiters. */
  function Undelimited(s: string): string {
    if s == [] then []
    else (if IsSentenceEnd(s[0]) then [] else [s[0]]) + Undelimited(s[1..])
  }

  /** The characters of `s` other than whitespace. */
  function NonSpace(s: string): string {
    if s == [] then []
    else (if IsSpace(s[0]) then [] else [s[0]]) + NonSpace(s[1..])
  }

  lemma {:induction false} NonSpaceAppend(a: string, b: string)
    ensures NonSpace(a + b) == NonSpace(a) + NonSpace(b)
    decreases |a|
  {
    if a == [] {
      assert a + b == b;
    } else {
      assert (a + b)[0] == a[0];
      assert (a + b)[1..] == a[1..] + b;
      NonSpaceAppend(a[1..], b);
    }
  }

  lemma {:induction false} NonSpaceOfSpace(s: string)
    requires AllSpace(s)
    ensures NonSpace(s) == []
    decreases |s|
  {
    if s != [] {
      NonSpaceOfSpace(s[1..]);
    }
  }

  /** `strip()` removes whitespace only. */
  lemma NonSpaceStrip(s: string)
    ensures NonSpace(Strip(s)) == NonSpace(s)
  {
    LStripNonSpace(s);
    RStripNonSpace(LStrip(s));
  }

  lemma LStripNonSpace(s: string)
    ensures NonSpace(LStrip(s)) == NonSpace(s)
  {
    var l := LStrip(s);
    var cut := s[..|s| - |l|];
    LStripCut(s);
    NonSpaceAppend(cut, l);
    NonSpaceOfSpace(cut);
  }

  lemma RStripNonSpace(s: string)
    ensures NonSpace(RStrip(s)) == NonSpace(s)
  {
    var r := RStrip(s);
    var cut := s[|r|..];
    RStripCut(s);
    NonSpaceAppend(r, cut);
    NonSpaceOfSpace(cut);
  }

  /** Gluing the pieces back together gives the text without its delimiters. */
  lemma {:induction false} ConcatPieces(s: string)
    ensures Concat(Pieces(s)) == Undelimited(s)
    decreases |s|
  {
    if s != [] {
      var rest := Pieces(s[1..]);
      ConcatPieces(s[1..]);
      if !IsSentenceEnd(s[0]) {
        assert Concat(rest) == rest[0] + Concat(rest[1..]);
        var ps := [[s[0]] + rest[0]] + rest[1..];
        assert ps[1..] == rest[1..];
        assert Concat(ps) == [s[0]] + rest[0] + Concat(rest[1..]);
      } else {
        assert ([""] + rest)[1..] == rest;
      }
    }
  }

  /** Cleaning the pieces loses whitespace and nothing else. */
  lemma {:induction false} CleanKeepsText(ps: seq<string>)
    ensures NonSpace(Concat(Clean(ps))) == NonSpace(Concat(ps))
    decreases |ps|
  {
    if ps != [] {
      CleanKeepsText(ps[1..]);
      NonSpaceAppend(ps[0], Concat(ps[1..]));
      NonSpaceStrip(ps[0]);
      if Strip(ps[0]) == [] {
        NonSpaceOfSpace(ps[0]);
      } else {
        var c := [Strip(ps[0])] + Clean(ps[1..]);
        assert c[1..] == Clean(ps[1..]);
        NonSpaceAppend(Strip(ps[0]), Concat(Clean(ps[1..])));
      }
    }
  }

  /** Every cleaned piece is a stripped, non-empty part of one of the pieces. */
  /** A sentence as the splitter returns it. */
  predicate IsSentence(x: string) {
    x != [] && !IsSpace(x[0]) && !IsSpace(x[|x| - 1]) && !HasSentenceEnd(x)
  }

  /** A non-blank piece without delimiters strips to a sentence. */
  lemma StrippedPiece(p: string)
    requires !HasSentenceEnd(p) && Strip(p) != []
    ensures IsSentence(Strip(p))
  {
    var x := Strip(p);
    var k := StripStart(p);
    forall i | 0 <= i < |x| ensures !IsSentenceEnd(x[i]) {
      assert x[i] == p[k + i];
    }
  }

  /** Every cleaned piece is a sentence. */
  lemma {:induction false} CleanShape(ps: seq<string>)
    requires forall k :: 0 <= k < |ps| ==> !HasSentenceEnd(ps[k])
    ensures forall k :: 0 <= k < |Clean(ps)| ==> IsSentence(Clean(ps)[k])
    decreases |ps|
  {
    if ps != [] {
      CleanShape(ps[1..]);
      if Strip(ps[0]) != [] {
        StrippedPiece(ps[0]);
        var c := Clean(ps);
        forall k | 0 <= k < |c| ensures IsSentence(c[k]) {
          if k > 0 {
            assert c[k] == Clean(ps[1..])[k - 1];
          }
        }
      }
    }
  }

  /** The sentences are non-empty, carry no surrounding whitespace and no delimiter, and
      between them hold every other non-blank character of the text, in order. */
  lemma SplitSentencesSpec(text: string)
    ensures forall k :: 0 <= k < |SplitSentences(text)| ==> IsSentence(SplitSentences(text)[k])
    ensures NonSpace(Concat(SplitSentences(text))) == NonSpace(Undelimited(text))
  {
    PiecesUndelimited(text);
    CleanShape(Pieces(text));
    CleanKeepsText(Pieces(text));
    ConcatPieces(text);
  }

  /** A text without delimiters is one sentence: itself, stripped, unless it is blank. */
  lemma UndelimitedIsOneSentence(text: string)
    requires !HasSentenceEnd(text)
    ensures SplitSentences(text) == if Strip(text) == [] then [] else [Strip(text)]
  {
    OneP(text);
  }

  lemma {:induction false} OneP(s: string)
    requires !HasSentenceEnd(s)
    ensures Pieces(s) == [s]
    decreases |s|
  {
    if s != [] {
      assert !HasSentenceEnd(s[1..]) by {
        forall i | 0 <= i < |s[1..]| ensures !IsSentenceEnd(s[1..][i]) {
          assert s[1..][i] == s[i + 1];
        }
      }
      OneP(s[1..]);
      assert !IsSentenceEnd(s[0]);
      assert [s[0]] + s[1..] == s;
    }
  }

  // ---------------------------------------------------------------------------
  // Duration estimates.

  /** `len(text) / chars_per_minute * 60 / speaking_rate`; a zero rate raises. */
  function Minutes(chars: nat, perMinute: nat, rate: real): (r: Result<real, Error>)
    requires perMinute > 0
    ensures r.Failure? <==> rate == 0.0
    ensures r.Failure? ==> r.error == ZeroDivision(DivisionByZero)
    ensures rate > 0.0 ==> r.Success? && r.value >= 0.0
  {
    if rate == 0.0 then Failure(ZeroDivision(DivisionByZero))
    else Success((chars as real / perMinute as real * 60.0) / rate)
  }

  /** The base `estimate_duration`: 150 characters a minute when the provider's default
      language mentions "ja", else 1000; never under one second. */
  function EstimateDuration(text: string, rate: real, defaultLanguage: string): (r: Result<real, Error>)
    ensures r.Failure? <==> rate == 0.0
    ensures r.Success? ==> r.value >= 1.0
  {
    var perMinute := if Contains(defaultLanguage, "ja") then 150 else 1000;
    var d :- Minutes(|text|, perMinute, rate);
    Success(if 1.0 < d then d else 1.0)
  }

  /** A longer text never gets a shorter estimate, and a faster rate never a longer one. */
  lemma EstimateMonotone(a: string, b: string, rate: real, faster: real, lang: string)
    requires |a| <= |b| && 0.0 < rate <= faster
    ensures EstimateDuration(a, rate, lang).value <= EstimateDuration(b, rate, lang).value
    ensures EstimateDuration(a, faster, lang).value <= EstimateDuration(a, rate, lang).value
  {
    var perMinute := if Contains(lang, "ja") then 150 else 1000;
    var m := |a| as real / perMinute as real * 60.0;
    assert m >= 0.0;
    DivideMonotone(m, |b| as real / perMinute as real * 60.0, rate);
    DivideByLarger(m, rate, faster);
  }

  /** A negative rate, which no caller is stopped from passing, gives the one-second floor. */
  lemma NegativeRateFloors(text: string, rate: real, lang: string)
    requires rate < 0.0
    ensures EstimateDuration(text, rate, lang) == Success(1.0)
  {
    var perMinute := if Contains(lang, "ja") then 150 else 1000;
    NonPositiveQuotient(|text| as real / perMinute as real * 60.0, rate);
  }

  lemma NonPositiveQuotient(x: real, y: real)
    requires x >= 0.0 && y < 0.0
    ensures x / y <= 0.0
  {
    assert x / y == -(x / -y);
  }

  lemma DivideMonotone(x: real, y: real, d: real)
    requires 0.0 <= x <= y && d > 0.0
    ensures x / d <= y / d
  {
    assert y / d - x / d == (y - x) / d;
  }

  lemma DivideByLarger(x: real, d: real, e: real)
    requires x >= 0.0 && 0.0 < d <= e
    ensures x / e <= x / d
  {
    assert x / d - x / e == x * (e - d) / (d * e);
  }

  /** A provider's own estimate: the base rule with its own reading speed, clamped to
      [1, `longest`] seconds. */
  function ClampedEstimate(chars: nat, perMinute: nat, rate: real, longest: real): (r: Result<real, Error>)
    requires perMinute > 0 && longest >= 1.0
    ensures r.Failure? <==> rate == 0.0
    ensures r.Success? ==> 1.0 <= r.value <= longest
  {
    var d :- Minutes(chars, perMinute, rate);
    Success(Clamp(d, 1.0, longest))
  }

  /** Within the clamp the provider estimate is the unclamped base rule. */
  lemma ClampedEstimateExact(chars: nat, perMinute: nat, rate: real, longest: real)
    requires perMinute > 0 && longest >= 1.0 && rate > 0.0
    requires 1.0 <= (chars as real / perMinute as real * 60.0) / rate <= longest
    ensures ClampedEstimate(chars, perMinute, rate, longest) == Success((chars as real / perMinute as real * 60.0) / rate)
  {
  }
}
