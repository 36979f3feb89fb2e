/**
 * Sentence timestamps. The MiniMax, ElevenLabs and Google providers share one
 * `_generate_sentence_timestamps` loop (backend/app/providers/tts/minimax.py,
 * elevenlabs.py and google.py) that gives each sentence a share of the estimated
 * duration in proportion to its length and differs only in the confidence it reports;
 * the Gemini provider (backend/app/providers/tts/gemini.py) splits on '。' itself and
 * gives every sentence an equal share.
 */
module TtsTimeline {
  import opened Wrappers
  import opened Strings
  import opened TtsBase

  /** `sum(len(s) for s in sentences)` */
  function TotalChars(ss: seq<string>): nat {
    if ss == [] then 0 else TotalChars(ss[..|ss| - 1]) + |ss[|ss| - 1]|
  }

  /** The part of `d` seconds that `n` of `total` characters get. */
  function Share(n: nat, total: nat, d: real): real
    requires total > 0
  {
    (n as real / total as real) * d
  }

  lemma ShareAdd(a: nat, b: nat, total: nat, d: real)
    requires total > 0
    ensures Share(a, total, d) + Share(b, total, d) == Share(a + b, total, d)
  {
    assert a as real / total as real + b as real / total as real == (a + b) as real / total as real;
  }

  /** The message of an integer true division by zero. */
  const IntDivisionByZero: string := "division by zero"

  /** Sentence `i` starts at the share of the characters before it and ends at the share
      of the characters up to and including it. */
  function Stamp(ss: seq<string>, i: nat, total: nat, d: real, confidence: real): SentenceTimestamp
    requires i < |ss| && total > 0
  {
    SentenceTimestamp(ss[i], Share(TotalChars(ss[..i]), total, d), Share(TotalChars(ss[..i + 1]), total, d), Some(confidence))
  }

  /** What the proportional loop returns. A non-empty list whose sentences are all empty
      divides by zero. */
  function Proportional(ss: seq<string>, d: real, confidence: real): (r: Result<seq<SentenceTimestamp>, Error>)
    ensures ss == [] ==> r == Success([])
    ensures r.Failure? <==> ss != [] && TotalChars(ss) == 0
    ensures r.Success? ==> |r.value| == |ss|
  {
    if ss == [] then Success([])
    else if TotalChars(ss) == 0 then Failure(ZeroDivision(IntDivisionByZero))
    else
      var total := TotalChars(ss);
      Success(seq(|ss|, i requires 0 <= i < |ss| => Stamp(ss, i, total, d, confidence)))
  }

  /** `_generate_sentence_timestamps`: the running `current_time` is the share of the
      characters seen so far. */
  method ProportionalTimestamps(ss: seq<string>, d: real, confidence: real)
    returns (r: Result<seq<SentenceTimestamp>, Error>)
    ensures r == Proportional(ss, d, confidence)
  {
    if ss == [] {
      return Success([]);
    }
    var total := TotalChars(ss);
    if total == 0 {
      return Failure(ZeroDivision(IntDivisionByZero));
    }
    var ts: seq<SentenceTimestamp> := [];
    var current := 0.0;
    var i := 0;
    while i < |ss|
      invariant 0 <= i <= |ss| && |ts| == i
      invariant current == Share(TotalChars(ss[..i]), total, d)
      invariant forall j :: 0 <= j < i ==> ts[j] == Stamp(ss, j, total, d, confidence)
    {
      var sentenceDuration := Share(|ss[i]|, total, d);
      var end := current + sentenceDuration;
      NextShare(ss, i, total, d);
      ts := ts + [SentenceTimestamp(ss[i], current, end, Some(confidence))];
      current := end;
      i := i + 1;
    }
    var want := Proportional(ss, d, confidence).value;
    assert forall j :: 0 <= j < |ts| ==> ts[j] == want[j];
    assert ts == want;
    r := Success(ts);
  }

  /** One step of the loop: adding sentence `i`'s share moves to the next prefix. */
  lemma NextShare(ss: seq<string>, i: nat, total: nat, d: real)
    requires i < |ss| && total > 0
    ensures Share(TotalChars(ss[..i]), total, d) + Share(|ss[i]|, total, d) == Share(TotalChars(ss[..i + 1]), total, d)
  {
    assert ss[..i + 1][..i] == ss[..i];
    ShareAdd(TotalChars(ss[..i]), |ss[i]|, total, d);
  }

  /** The timestamps tile [0, d]: the first starts at 0, each starts where the previous
      one ended, the last ends at `d`, each sentence's span is its share of `d`, and no
      span runs backwards when `d` is not negative. */
  lemma ProportionalTiles(ss: seq<string>, d: real, confidence: real)
    requires ss != [] && TotalChars(ss) > 0
    ensures var ts := Proportional(ss, d, confidence).value;
      && ts[0].start == 0.0
      && ts[|ts| - 1].end == d
      && (forall i :: 0 <= i < |ts| - 1 ==> ts[i].end == ts[i + 1].start)
      && (forall i :: 0 <= i < |ts| ==> ts[i].text == ss[i] && ts[i].confidence == Some(confidence))
      && (forall i :: 0 <= i < |ts| ==> ts[i].end - ts[i].start == Share(|ss[i]|, TotalChars(ss), d))
      && (d >= 0.0 ==> forall i :: 0 <= i < |ts| ==> ts[i].start <= ts[i].end)
  {
    var ts := Proportional(ss, d, confidence).value;
    var total := TotalChars(ss);
    assert ts[|ts| - 1] == Stamp(ss, |ss| - 1, total, d, confidence);
    assert ss[..|ss|] == ss;
    ShareWhole(total, d);
    assert ss[..0] == [];
    forall i | 0 <= i < |ts| ensures ts[i].end - ts[i].start == Share(|ss[i]|, total, d) {
      NextShare(ss, i, total, d);
    }
    if d >= 0.0 {
      forall i | 0 <= i < |ts| ensures ts[i].start <= ts[i].end {
        NextShare(ss, i, total, d);
        ShareNonNegative(|ss[i]|, total, d);
      }
    }
  }

  lemma ShareWhole(total: nat, d: real)
    requires total > 0
    ensures Share(total, total, d) == d && Share(0, total, d) == 0.0
  {
  }

  lemma ShareNonNegative(n: nat, total: nat, d: real)
    requires total > 0 && d >= 0.0
    ensures Share(n, total, d) >= 0.0
  {
  }

  /** The total of non-empty sentences is positive. */
  lemma {:induction false} TotalCharsPositive(ss: seq<string>)
    requires ss != [] && (forall k :: 0 <= k < |ss| ==> ss[k] != [])
    ensures TotalChars(ss) > 0
  {
    assert ss[|ss| - 1] != [];
  }

  /** The providers lay out the sentences of the splitter, which are never empty, so the
      division by zero cannot happen there. */
  lemma SplitSentencesNeverDivideByZero(text: string, d: real, confidence: real)
    ensures Proportional(SplitSentences(text), d, confidence).Success?
  {
    var ss := SplitSentences(text);
    SplitSentencesSpec(text);
    if ss != [] {
      TotalCharsPositive(ss);
    }
  }

  // ---------------------------------------------------------------------------
  // Gemini: equal shares.

  /** `[s.strip() for s in text.split('。') if s.strip()]` */
  function GeminiSentences(text: string): seq<string> {
    Clean(Split(text, '。'))
  }

  /** The sentences with '。' put back on every one but the last. */
  function Marked(ss: seq<string>): (r: seq<string>)
    ensures |r| == |ss|
  {
    seq(|ss|, i requires 0 <= i < |ss| => ss[i] + (if i < |ss| - 1 then "。" else ""))
  }

  /** The `i`-th multiple of `each`. */
  function Slot(i: nat, each: real): real {
    i as real * each
  }

  lemma SlotStep(i: nat, each: real)
    ensures Slot(i + 1, each) - Slot(i, each) == each
  {
  }

  lemma SlotAll(n: nat, d: real)
    requires n > 0
    ensures Slot(n, d / n as real) == d
  {
  }

  /** Sentence `i` of `ss` spans [i·each, (i+1)·each], with no confidence. */
  function EqualStamp(ss: seq<string>, i: nat, each: real): SentenceTimestamp
    requires i < |ss|
  {
    SentenceTimestamp(Marked(ss)[i], Slot(i, each), Slot(i + 1, each), None)
  }

  /** What Gemini's `_generate_sentence_timestamps` returns: each of the `n` sentences
      gets `d / n` seconds. */
  function EqualShares(text: string, d: real): (ts: seq<SentenceTimestamp>)
    ensures |ts| == |GeminiSentences(text)|
  {
    var ss := GeminiSentences(text);
    var n := |ss|;
    if n == 0 then []
    else seq(n, i requires 0 <= i < n => EqualStamp(ss, i, d / n as real))
  }

  /** Gemini's `_generate_sentence_timestamps` */
  method GeminiTimestamps(text: string, d: real) returns (ts: seq<SentenceTimestamp>)
    ensures ts == EqualShares(text, d)
  {
    var ss := GeminiSentences(text);
    if |ss| == 0 {
      return [];
    }
    var each := d / |ss| as real;
    ts := [];
    var i := 0;
    while i < |ss|
      invariant 0 <= i <= |ss| && |ts| == i
      invariant forall j :: 0 <= j < i ==> ts[j] == EqualStamp(ss, j, each)
    {
      var start := Slot(i, each);
      var end := Slot(i + 1, each);
      var sentence := ss[i] + (if i < |ss| - 1 then "。" else "");
      ts := ts + [SentenceTimestamp(sentence, start, end, None)];
      i := i + 1;
    }
    var want := EqualShares(text, d);
    assert forall j :: 0 <= j < |ts| ==> ts[j] == want[j];
    assert ts == want;
  }

  /** Gemini's timestamps tile [0, d] in equal parts. */
  lemma EqualSharesTile(text: string, d: real)
    requires GeminiSentences(text) != []
    ensures var ts := EqualShares(text, d);
      var n := |ts|;
      && ts[0].start == 0.0
      && ts[n - 1].end == d
      && (forall i :: 0 <= i < n - 1 ==> ts[i].end == ts[i + 1].start)
      && (forall i :: 0 <= i < n ==> ts[i].end - ts[i].start == d / n as real)
  {
    var ss := GeminiSentences(text);
    var ts := EqualShares(text, d);
    var n := |ss|;
    var each := d / n as real;
    SlotAll(n, d);
    assert ts[n - 1] == EqualStamp(ss, n - 1, each);
    forall i | 0 <= i < n ensures ts[i].end - ts[i].start == each {
      assert ts[i] == EqualStamp(ss, i, each);
      SlotStep(i, each);
    }
  }

  /** Gluing Gemini's sentence texts together gives the sentences joined with '。'. */
  lemma {:induction false} MarkedJoin(ss: seq<string>)
    ensures Concat(Marked(ss)) == Join(ss, "。")
    decreases |ss|
  {
    if |ss| > 1 {
      assert Marked(ss)[1..] == Marked(ss[1..]);
      MarkedJoin(ss[1..]);
    } else if |ss| == 1 {
      assert ss[0] + "" == ss[0];
      assert Marked(ss) == [ss[0]];
      assert Concat([ss[0]]) == ss[0] + Concat([]);
    }
  }

  /** The texts Gemini lays out are its sentences, and together they read as the
      sentences joined with '。'. */
  lemma EqualSharesText(text: string, d: real)
    ensures var ts := EqualShares(text, d);
      Concat(seq(|ts|, i requires 0 <= i < |ts| => ts[i].text)) == Join(GeminiSentences(text), "。")
  {
    var ss := GeminiSentences(text);
    var ts := EqualShares(text, d);
    assert seq(|ts|, i requires 0 <= i < |ts| => ts[i].text) == Marked(ss);
    MarkedJoin(ss);
  }
}
