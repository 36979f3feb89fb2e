/**
 * The Anthropic provider (backend/app/providers/ai/anthropic/provider.py): the fixed
 * answers without an API key, the request each operation sends, the fallback from the
 * Messages API to the Completions API, the reading of JSON out of replies, the shaping
 * of research results and the cleanup of titles. Both APIs are oracles from a request to
 * the reply text or the text of what they raised; `json.loads` is an oracle too. The
 * long multi-line system prompts are parameters (`Instructions`), as their wording does
 * not affect any decision the code makes.
 */
module AnthropicProvider {
  import opened Wrappers
  import opened Strings
  import opened JsonValue
  import opened CodeFence
  import opened Seqs

  /** The SDK's turn markers. */
  const HumanPrompt := "\n\nHuman:"
  const AiPrompt := "\n\nAssistant:"

  const MainModel := "claude-3-7-sonnet-20250219"
  const FallbackModel := "claude-2.1"

  datatype ChatMessage = ChatMessage(role: string, content: string)

  datatype MessagesRequest = MessagesRequest(model: string, system: string, messages: seq<ChatMessage>,
                                             temperature: real, maxTokens: nat)
  datatype CompletionRequest = CompletionRequest(model: string, prompt: string, temperature: real, maxTokens: nat,
                                                 stopSequences: seq<string>)

  /** The two APIs: the reply's text, or the text of the exception. */
  datatype Api = Api(messages: MessagesRequest -> Result<string, string>,
                     completions: CompletionRequest -> Result<string, string>)

  /** The system prompts and the fixed part of the research request. */
  datatype Instructions = Instructions(summarizer: string, proofreader: string, researcher: string, titler: string,
                                       researchFormat: string)

  type Parse = string -> Option<Json>

  const NoKeySummary := "APIキーが設定されていないため、要約できません。"
  const NoKeyProofread := "APIキーが設定されていないため、校正できません。"
  const NoKeyResearch := "APIキーが設定されていないため、リサーチできません。"
  const NoKeyChat := "APIキーが設定されていないため、チャットできません。"
  const NoKeyTitle := "APIキーが設定されていないため、タイトルを生成できません。"

  /** The sentence appended when a maximum length is given (and not 0). */
  function LengthNote(maxLength: Option<int>, what: string): string {
    if maxLength.Some? && maxLength.value != 0 then "\n" + what + "は" + IntToString(maxLength.value) + "文字以内にしてください。"
    else ""
  }

  /** The Messages API first; when it raises, the Completions API; when that raises too,
      the error message. */
  function WithFallback(first: Result<string, string>, second: Result<string, string>, errorPrefix: string): string {
    if first.Success? then first.value else if second.Success? then second.value else errorPrefix + second.error
  }

  // ---------------------------------------------------------------------------------
  // summarize

  const SummarizeAsk := "次のテキストを要約してください: "

  /** `summarize` */
  function Summarize(apiKey: string, text: string, maxLength: Option<int>, ins: Instructions, api: Api): (r: string)
    ensures apiKey == "" ==> r == NoKeySummary
    ensures apiKey != "" ==>
      var first := api.messages(MessagesRequest(MainModel, ins.summarizer,
                                                [ChatMessage("user", SummarizeAsk + text + LengthNote(maxLength, "要約"))], 0.3, 1024));
      var prompt := HumanPrompt + " " + SummarizeAsk + text + LengthNote(maxLength, "要約") + " " + AiPrompt;
      r == WithFallback(first, api.completions(CompletionRequest(FallbackModel, prompt, 0.3, 1024, [])),
                        "要約中にエラーが発生しました: ")
  {
    if apiKey == "" then NoKeySummary
    else
      var note := LengthNote(maxLength, "要約");
      var first := api.messages(MessagesRequest(MainModel, ins.summarizer, [ChatMessage("user", SummarizeAsk + text + note)], 0.3, 1024));
      var prompt := HumanPrompt + " " + SummarizeAsk + text + note + " " + AiPrompt;
      WithFallback(first, api.completions(CompletionRequest(FallbackModel, prompt, 0.3, 1024, [])), "要約中にエラーが発生しました: ")
  }

  // ---------------------------------------------------------------------------------
  // proofread

  /** `proofread`'s answer: the parsed JSON, or the original text with no corrections
      and an error. */
  datatype ProofreadResult = Parsed(value: Json) | Unparsed(correctedText: string, error: string)

  const ProofreadAsk := "次のテキストを校正してください: "
  const ProofreadUnparsable := "校正結果のパースに失敗しました。"

  /** `proofread` */
  function Proofread(apiKey: string, text: string, ins: Instructions, api: Api, parse: Parse): (r: ProofreadResult)
    ensures apiKey == "" ==> r == Unparsed(text, NoKeyProofread)
    ensures apiKey != "" ==>
      var first := api.messages(MessagesRequest(MainModel, ins.proofreader, [ChatMessage("user", ProofreadAsk + text)], 0.1, 2048));
      var second := api.completions(CompletionRequest(FallbackModel, HumanPrompt + " " + ProofreadAsk + text + " " + AiPrompt, 0.1, 2048, []));
      && (first.Failure? && second.Failure? ==> r == Unparsed(text, "校正中にエラーが発生しました: " + second.error))
      && (first.Success? || second.Success? ==>
            var reply := if first.Success? then first.value else second.value;
            r == if parse(FenceText(reply)).Some? then Parsed(parse(FenceText(reply)).value)
                 else Unparsed(text, ProofreadUnparsable))
  {
    if apiKey == "" then Unparsed(text, NoKeyProofread)
    else
      var first := api.messages(MessagesRequest(MainModel, ins.proofreader, [ChatMessage("user", ProofreadAsk + text)], 0.1, 2048));
      var second := api.completions(CompletionRequest(FallbackModel, HumanPrompt + " " + ProofreadAsk + text + " " + AiPrompt, 0.1, 2048, []));
      if first.Failure? && second.Failure? then Unparsed(text, "校正中にエラーが発生しました: " + second.error)
      else
        var reply := if first.Success? then first.value else second.value;
        match parse(FenceText(reply))
        case Some(j) => Parsed(j)
        case None => Unparsed(text, ProofreadUnparsable)
  }

  /** A reply whose ```json block parses is answered with the parsed block, whatever
      surrounds it. */
  lemma ProofreadReadsJsonBlock(apiKey: string, text: string, ins: Instructions, api: Api, parse: Parse,
                                pre: string, body: string, post: string)
    requires apiKey != "" && '`' !in pre && '`' !in body
    requires api.messages(MessagesRequest(MainModel, ins.proofreader, [ChatMessage("user", ProofreadAsk + text)], 0.1, 2048))
             == Success(pre + JsonFence + body + Fence + post)
    requires parse(Strip(body)).Some?
    ensures Proofread(apiKey, text, ins, api, parse) == Parsed(parse(Strip(body)).value)
  {
    JsonBlockExtracted(pre, body, post);
  }

  // ---------------------------------------------------------------------------------
  // research: reading the JSON array out of the reply

  /** Where `re.search(r'```(?:json)?\s*([\s\S]*?)\s*```', t)` finds its block: after the
      first fence (and a "json" right after it), up to the next fence; the group is
      stripped. None when no fence follows the first. */
  function RegexFencedBlock(t: string): (r: Option<string>)
    ensures !Contains(t, Fence) ==> r.None?
    ensures r.Some? ==> r.value == Strip(r.value) && !Contains(r.value, Fence)
  {
    match Find(t, Fence)
    case None => None
    case Some(p) =>
      var start := if OccursAt(t, "json", p + 3) then p + 7 else p + 3;
      if Contains(t[start..], Fence) then Some(StripNoFence(BeforeFence(t[start..]))) else None
  }

  /** A reply holding a ```json block gives that block, stripped, to the parser. */
  lemma RegexReadsJsonBlock(pre: string, body: string, post: string)
    requires '`' !in pre && '`' !in body
    ensures RegexFencedBlock(pre + JsonFence + body + Fence + post) == Some(Strip(body))
  {
    var rest := JsonFence + body + Fence + post;
    var t := pre + rest;
    assert t == pre + JsonFence + body + Fence + post;
    assert rest[..3] == Fence;
    FirstAtJoin(pre, rest, Fence);
    assert t[|pre| + 3..|pre| + 7] == "json";
    var tail := body + (Fence + post);
    assert t[|pre| + 7..] == tail;
    FirstAtJoin(body, Fence + post, Fence);
    assert OccursAt(tail, Fence, |body|);
    assert tail[..|body|] == body;
  }

  /** `text.find('[')` to `text.rfind(']')` inclusive, when the first comes before the
      second. */
  function BracketSpan(t: string): (r: Option<string>)
    ensures r.None? <==> '[' !in t || ']' !in t[IndexOfChar(t, '[')..]
    ensures r.Some? ==> |r.value| >= 2 && r.value[0] == '[' && r.value[|r.value| - 1] == ']' && Contains(t, r.value)
  {
    if '[' in t && ']' in t then
      var i := IndexOfChar(t, '[');
      var j := LastIndexOfChar(t, ']').value;
      if i < j then
        assert t[i..][j - i] == ']';
        assert OccursAt(t, t[i..j + 1], i);
        Some(t[i..j + 1])
      else
        assert t[i..] == t[j + 1..][i - j - 1..];
        None
    else
      assert '[' in t ==> forall k :: 0 <= k < |t[IndexOfChar(t, '[')..]| ==> t[IndexOfChar(t, '[')..][k] in t;
      None
  }

  /** The text `extract_json` hands to `json.loads`, in order of preference: the fenced
      block; the whole stripped text when it is bracketed; the bracketed span; else none
      ("No JSON array found"). */
  function JsonCandidate(text: string): (r: Option<string>)
    ensures RegexFencedBlock(Strip(text)).Some? ==> r == RegexFencedBlock(Strip(text))
    ensures RegexFencedBlock(Strip(text)).None? ==> r == BracketSpan(Strip(text))
  {
    var t := Strip(text);
    match RegexFencedBlock(t)
    case Some(b) => Some(b)
    case None =>
      if StartsWith(t, "[") && EndsWith(t, "]") then
        WholeSpan(t);
        Some(t)
      else BracketSpan(t)
  }

  /** A text that opens with '[' and closes with ']' is its own bracketed span, so the
      second case of `extract_json` agrees with the third. */
  lemma WholeSpan(t: string)
    requires StartsWith(t, "[") && EndsWith(t, "]")
    ensures BracketSpan(t) == Some(t)
  {
    assert t[0] == t[..1][0];
    assert t[|t| - 1] == t[|t| - 1..][0];
    LastIndexOfCharAt(t, ']', |t| - 1);
    assert t[0..|t|] == t;
  }

  /** `extract_json`: the candidate parsed; None for "No JSON array found" and for
      "Invalid JSON". */
  function ExtractJson(text: string, parse: Parse): Option<Json> {
    match JsonCandidate(text)
    case None => None
    case Some(c) => parse(c)
  }

  // ---------------------------------------------------------------------------------
  // research: shaping the results

  type Item = map<string, Json>

  const NoSource := "情報源なし"

  /** One item of the parsed array: a dict with title and content is kept, with
      relevance 0.8 and source "情報源なし" filled in when missing; anything else is
      dropped. */
  function FormatItem(item: Json): Option<Item> {
    match item
    case JObject(f) =>
      if "title" in f && "content" in f then
        var withRelevance := if "relevance" in f then f else f["relevance" := JNum(0.8)];
        Some(if "source" in withRelevance then withRelevance else withRelevance["source" := JStr(NoSource)])
      else None
    case _ => None
  }

  /** The kept items in order. */
  function Formatted(items: seq<Json>): (r: seq<Item>)
    ensures |r| <= |items|
  {
    if items == [] then []
    else
      var init := Formatted(items[..|items| - 1]);
      match FormatItem(items[|items| - 1])
      case Some(it) => init + [it]
      case None => init
  }

  /** The loop of `research` that builds `formatted_results`. */
  method FormatResults(items: seq<Json>) returns (r: seq<Item>)
    ensures r == Formatted(items)
  {
    r := [];
    for i := 0 to |items|
      invariant r == Formatted(items[..i])
    {
      assert items[..i + 1][..i] == items[..i];
      var item := items[i];
      if item.JObject? && "title" in item.fields && "content" in item.fields {
        var f := item.fields;
        if "relevance" !in f {
          f := f["relevance" := JNum(0.8)];
        }
        if "source" !in f {
          f := f["source" := JStr(NoSource)];
        }
        r := r + [f];
      }
    }
    assert items[..|items|] == items;
  }

  /** A kept item has title, content, relevance and source. */
  predicate WellFormed(it: Item) {
    "title" in it && "content" in it && "relevance" in it && "source" in it
  }

  lemma {:induction false} FormattedWellFormed(items: seq<Json>)
    ensures forall k :: 0 <= k < |Formatted(items)| ==> WellFormed(Formatted(items)[k])
  {
    if items != [] {
      FormattedWellFormed(items[..|items| - 1]);
    }
  }

  /** An item that is a dict with title and content always survives, with its own
      fields unchanged; no other item does. */
  lemma FormatItemKeeps(item: Json)
    ensures FormatItem(item).Some? <==> item.JObject? && "title" in item.fields && "content" in item.fields
    ensures FormatItem(item).Some? ==>
      && WellFormed(FormatItem(item).value)
      && forall k :: k in item.fields ==> k in FormatItem(item).value && FormatItem(item).value[k] == item.fields[k]
  {
  }

  /** Python's `s[:n]`: a negative `n` counts from the end. */
  function SliceTo<T>(s: seq<T>, n: int): (r: seq<T>)
    ensures |r| <= |s| && r == s[..|r|]
    ensures n >= 0 ==> |r| == if n < |s| then n else |s|
    ensures n < 0 ==> |r| == if |s| + n > 0 then |s| + n else 0
  {
    if n >= 0 then s[..if n < |s| then n else |s|]
    else s[..if |s| + n > 0 then |s| + n else 0]
  }

  // ---------------------------------------------------------------------------------
  // research: the first URL in the reply

  /** The length of the run of non-whitespace characters from `j`. */
  function RunLength(s: string, j: nat): (n: nat)
    requires j <= |s|
    ensures j + n <= |s|
    ensures forall k :: j <= k < j + n ==> !IsSpace(s[k])
    ensures j + n == |s| || IsSpace(s[j + n])
    decreases |s| - j
  {
    if j == |s| || IsSpace(s[j]) then 0 else 1 + RunLength(s, j + 1)
  }

  /** The length of the prefix `https?://` matches at `i` when at least one
      non-whitespace character follows it, or 0. */
  function SchemeAt(s: string, i: nat): (n: nat)
    ensures n == 0 || n == 7 || n == 8
    ensures n != 0 ==> i + n < |s| && !IsSpace(s[i + n]) && s[i..i + 4] == "http"
    ensures n != 0 ==> forall k :: i <= k < i + n ==> !IsSpace(s[k])
  {
    if OccursAt(s, "https://", i) && i + 8 < |s| && !IsSpace(s[i + 8]) then
      assert s[i..i + 4] == s[i..i + 8][..4];
      8
    else if OccursAt(s, "http://", i) && i + 7 < |s| && !IsSpace(s[i + 7]) then
      assert s[i..i + 4] == s[i..i + 7][..4];
      7
    else 0
  }

  /** `s[a..b]` is a match of `https?://[^\s]+`: the scheme, then the longest run of
      non-whitespace characters. */
  predicate UrlMatch(s: string, a: nat, b: nat) {
    && a < b <= |s|
    && SchemeAt(s, a) != 0
    && a + SchemeAt(s, a) <= |s|
    && b == a + SchemeAt(s, a) + RunLength(s, a + SchemeAt(s, a))
  }

  /** No match starts in `[i, j)`. */
  predicate NoUrlStart(s: string, i: nat, j: nat) {
    forall p :: i <= p < j ==> SchemeAt(s, p) == 0
  }

  /** The span of the first match of `https?://[^\s]+` at or after `i`. */
  function UrlFrom(s: string, i: nat): (r: Option<(nat, nat)>)
    requires i <= |s|
    ensures r.Some? ==> i <= r.value.0 && UrlMatch(s, r.value.0, r.value.1) && NoUrlStart(s, i, r.value.0)
    ensures r.None? ==> NoUrlStart(s, i, |s|)
    decreases |s| - i
  {
    if i == |s| then None
    else
      var n := SchemeAt(s, i);
      if n != 0 then Some((i, i + n + RunLength(s, i + n)))
      else UrlFrom(s, i + 1)
  }

  /** `re.findall(r'https?://[^\s]+', raw)[0]`, or "情報源なし" when there is none. */
  function SourceOf(raw: string): (r: string)
    ensures UrlFrom(raw, 0).None? ==> r == NoSource
    ensures UrlFrom(raw, 0).Some? ==>
      StartsWith(r, "http") && Contains(raw, r) && (forall k :: 0 <= k < |r| ==> !IsSpace(r[k]))
  {
    match UrlFrom(raw, 0)
    case None => NoSource
    case Some((a, b)) =>
      UrlSpan(raw, a, b);
      raw[a..b]
  }

  lemma UrlSpan(s: string, a: nat, b: nat)
    requires UrlMatch(s, a, b)
    ensures StartsWith(s[a..b], "http") && Contains(s, s[a..b])
    ensures forall k :: 0 <= k < b - a ==> !IsSpace(s[a..b][k])
  {
    assert s[a..b][..4] == s[a..a + 4];
    assert OccursAt(s, s[a..b], a);
    forall k | 0 <= k < b - a ensures !IsSpace(s[a..b][k]) {
      assert s[a..b][k] == s[a + k];
    }
  }

  // ---------------------------------------------------------------------------------
  // research

  const ResearchAsk := "以下のトピックについて調査してください: "

  /** The final sentence of the research request. It is a plain string literal, so it
      asks for "{max_results}" results, braces and all; `interpolated` gives the
      f-string it was evidently meant to be. */
  function CountSentence(maxResults: int, interpolated: bool): string {
    "必ず上記の形式で返してください。情報が見つからない場合でも、必ず同じ形式で返してください。結果は必ず"
    + (if interpolated then IntToString(maxResults) else "{max_results}")
    + "個返してください。他のテキストは含めないでください。"
  }

  /** The first request of `research`, with stop sequences. */
  function ResearchRequest(query: string, maxResults: int, ins: Instructions, interpolated: bool): CompletionRequest {
    var prompt := HumanPrompt + " " + ins.researcher + "\n\n" + ResearchAsk + query + "\n\n" + ins.researchFormat
                  + CountSentence(maxResults, interpolated) + " " + AiPrompt;
    CompletionRequest(FallbackModel, prompt, 0.3, 4096, ["\nHuman:", "\n```\n"])
  }

  /** The request made when the first one raised. */
  function RetryRequest(query: string, ins: Instructions): CompletionRequest {
    CompletionRequest(FallbackModel, HumanPrompt + " " + ins.researcher + "\n\n" + ResearchAsk + query + " " + AiPrompt,
                      0.5, 4096, [])
  }

  /** The single item built from a reply that was not read as an array. */
  function RawItem(query: string, raw: string, source: string): Item {
    map["title" := JStr(query), "content" := JStr(raw), "relevance" := JNum(1.0), "source" := JStr(source)]
  }

  function ErrorItem(message: string, relevance: bool): Item {
    if relevance then map["title" := JStr("エラー"), "content" := JStr(message), "relevance" := JNum(0.0)]
    else map["title" := JStr("エラー"), "content" := JStr(message)]
  }

  /** The items kept from the reply: none unless it holds a JSON array. */
  function Kept(raw: string, parse: Parse): seq<Item> {
    var parsed := ExtractJson(raw, parse);
    if parsed.Some? && parsed.value.JArray? then Formatted(parsed.value.items) else []
  }

  /** The list made of the reply: the kept items up to `max_results`, or the raw item
      when none is kept. */
  function ResearchFromReply(query: string, raw: string, maxResults: int, parse: Parse): seq<Item> {
    FromKept(Kept(raw, parse), query, raw, maxResults)
  }

  function FromKept(kept: seq<Item>, query: string, raw: string, maxResults: int): seq<Item> {
    if kept != [] then SliceTo(kept, maxResults) else [RawItem(query, raw, SourceOf(raw))]
  }

  /** `research`, with the count sentence as written (`interpolated` false) or as
      intended. */
  function Research(apiKey: string, query: string, maxResults: int, ins: Instructions, api: Api, parse: Parse,
                    interpolated: bool): (r: seq<Item>)
    ensures apiKey == "" ==> r == [ErrorItem(NoKeyResearch, false)]
    ensures apiKey != "" && api.completions(ResearchRequest(query, maxResults, ins, interpolated)).Success? ==>
      r == ResearchFromReply(query, api.completions(ResearchRequest(query, maxResults, ins, interpolated)).value,
                             maxResults, parse)
    ensures apiKey != "" && api.completions(ResearchRequest(query, maxResults, ins, interpolated)).Failure? ==>
      var retry := api.completions(RetryRequest(query, ins));
      && |r| == 1 && "content" in r[0] && WellFormed(r[0]) == retry.Success?
      && (retry.Success? ==> r[0]["content"] == JStr(retry.value) && r[0]["source"] == JStr(NoSource))
      && (retry.Failure? ==> r[0]["content"] == JStr("リサーチ中にエラーが発生しました: " + retry.error))
  {
    if apiKey == "" then [ErrorItem(NoKeyResearch, false)]
    else
      match api.completions(ResearchRequest(query, maxResults, ins, interpolated))
      case Success(raw) => ResearchFromReply(query, raw, maxResults, parse)
      case Failure(_) =>
        match api.completions(RetryRequest(query, ins))
        case Success(result) => [RawItem(query, result, NoSource)]
        case Failure(e) =>
          [ErrorItem("リサーチ中にエラーが発生しました: " + e, true)]
  }

  /** With a reply in hand, every returned item carries title, content, relevance and
      source; with none kept, the one item holds the raw reply; otherwise the kept items
      are returned in order, at most `max_results` of them. */
  lemma ResearchResultShape(query: string, raw: string, maxResults: int, parse: Parse)
    ensures var r := ResearchFromReply(query, raw, maxResults, parse);
      && (forall k :: 0 <= k < |r| ==> WellFormed(r[k]))
      && (Kept(raw, parse) == [] ==> r == [RawItem(query, raw, SourceOf(raw))])
      && (Kept(raw, parse) != [] ==> r == Kept(raw, parse)[..|r|])
      && (Kept(raw, parse) != [] && maxResults >= 0 ==>
            |r| <= maxResults && (|r| < maxResults ==> r == Kept(raw, parse)))
  {
    KeptWellFormed(raw, parse);
    FromKeptShape(Kept(raw, parse), query, raw, maxResults);
  }

  /** The shape of the list made from well-formed kept items. */
  lemma FromKeptShape(kept: seq<Item>, query: string, raw: string, maxResults: int)
    requires forall k :: 0 <= k < |kept| ==> WellFormed(kept[k])
    ensures var r := FromKept(kept, query, raw, maxResults);
      && (forall k :: 0 <= k < |r| ==> WellFormed(r[k]))
      && (kept == [] ==> r == [RawItem(query, raw, SourceOf(raw))])
      && (kept != [] ==> r == kept[..|r|])
      && (kept != [] && maxResults >= 0 ==> |r| <= maxResults && (|r| < maxResults ==> r == kept))
  {
    var r := FromKept(kept, query, raw, maxResults);
    if kept != [] {
      forall k | 0 <= k < |r|
        ensures WellFormed(r[k])
      {
        assert r[k] == kept[k];
      }
      assert kept[..|kept|] == kept;
    } else {
      assert WellFormed(r[0]);
    }
  }

  /** Every kept item is well formed. */
  lemma KeptWellFormed(raw: string, parse: Parse)
    ensures forall k :: 0 <= k < |Kept(raw, parse)| ==> WellFormed(Kept(raw, parse)[k])
  {
    var parsed := ExtractJson(raw, parse);
    if parsed.Some? && parsed.value.JArray? {
      FormattedWellFormed(parsed.value.items);
    }
  }

  /** The request as written asks for "{max_results}" results whatever the number;
      read as the f-string it resembles, it names the number. */
  lemma AsWrittenCountNotInterpolated(maxResults: int)
    ensures Contains(CountSentence(maxResults, false), "{max_results}")
    ensures CountSentence(maxResults, false) == CountSentence(maxResults + 1, false)
  {
    var pre := "必ず上記の形式で返してください。情報が見つからない場合でも、必ず同じ形式で返してください。結果は必ず";
    var s := CountSentence(maxResults, false);
    assert s[|pre|..|pre| + 13] == "{max_results}";
    assert OccursAt(s, "{max_results}", |pre|);
  }

  /** Corrected: the request names the number of results asked for, so different
      numbers give different requests. */
  lemma CorrectedCountInterpolated(a: int, b: int)
    requires a != b && a >= 0 && b >= 0
    ensures CountSentence(a, true) != CountSentence(b, true)
  {
    var pre := "必ず上記の形式で返してください。情報が見つからない場合でも、必ず同じ形式で返してください。結果は必ず";
    var post := "個返してください。他のテキストは含めないでください。";
    var sa := CountSentence(a, true);
    var sb := CountSentence(b, true);
    NatToStringValue(a);
    NatToStringValue(b);
    assert sa[|pre|..|sa| - |post|] == NatToString(a);
    assert sb[|pre|..|sb| - |post|] == NatToString(b);
  }

  // ---------------------------------------------------------------------------------
  // chat

  const DefaultChatSystem := "あなたは親切で役立つAIアシスタントです。ユーザーの質問に簡潔に答えてください。"

  /** The Messages API roles: "user" stays, anything else becomes "assistant". */
  function MessagesFor(messages: seq<ChatMessage>): (r: seq<ChatMessage>)
    ensures |r| == |messages|
    ensures forall k :: 0 <= k < |r| ==>
      r[k].content == messages[k].content && (r[k].role == "user" <==> messages[k].role == "user")
      && (r[k].role == "user" || r[k].role == "assistant")
  {
    seq(|messages|, k requires 0 <= k < |messages| =>
      ChatMessage(if messages[k].role == "user" then "user" else "assistant", messages[k].content))
  }

  /** The text the completion prompt gives message `i`: a user message after the first
      opens with the human marker, any other role with the assistant marker. */
  function Turn(i: nat, m: ChatMessage): string {
    if m.role == "user" then (if i > 0 then HumanPrompt else "") + m.content else AiPrompt + m.content
  }

  function Turns(messages: seq<ChatMessage>): string {
    if messages == [] then ""
    else Turns(messages[..|messages| - 1]) + Turn(|messages| - 1, messages[|messages| - 1])
  }

  /** The human marker, then the system prompt when there is one. */
  function Opening(system: string): string {
    if system != "" then HumanPrompt + "\n\n" + system + "\n\n" else HumanPrompt
  }

  /** The Completions API prompt of `chat`, before the closing marker. */
  function Conversation(messages: seq<ChatMessage>, system: string): string {
    Opening(system) + Turns(messages)
  }

  lemma TurnsStep(messages: seq<ChatMessage>, i: nat)
    requires i < |messages|
    ensures Turns(messages[..i + 1]) == Turns(messages[..i]) + Turn(i, messages[i])
  {
    assert messages[..i + 1][..i] == messages[..i];
  }

  /** What one pass of the prompt loop appends is the message's turn. */
  lemma AppendTurn(before: string, i: nat, msg: ChatMessage, after: string)
    requires after == if msg.role == "user" then (if i > 0 then before + HumanPrompt else before) + msg.content
                      else before + AiPrompt + msg.content
    ensures after == before + Turn(i, msg)
  {
    if msg.role != "user" {
      Associative(before, AiPrompt, msg.content);
    } else if i > 0 {
      Associative(before, HumanPrompt, msg.content);
    } else {
      assert "" + msg.content == msg.content;
    }
  }

  /** The prompt always opens with the human marker and ends with the assistant
      marker, which is added unless the conversation already ends with it. */
  function CompletionPrompt(messages: seq<ChatMessage>, system: string): (p: string)
    ensures StartsWith(p, HumanPrompt) && EndsWith(p, AiPrompt)
    ensures StartsWith(p, Conversation(messages, system))
    ensures |p| - |Conversation(messages, system)| == (if EndsWith(Conversation(messages, system), AiPrompt) then 0 else |AiPrompt|)
  {
    var c := Conversation(messages, system);
    assert c[..|HumanPrompt|] == HumanPrompt;
    if EndsWith(c, AiPrompt) then c
    else
      var p := c + AiPrompt;
      assert p[|p| - |AiPrompt|..] == AiPrompt;
      assert p[..|c|] == c;
      p
  }

  /** The prompt loop of `chat`'s fallback. */
  method BuildCompletionPrompt(messages: seq<ChatMessage>, system: string) returns (p: string)
    ensures p == CompletionPrompt(messages, system)
  {
    var conversation := HumanPrompt;
    if system != "" {
      conversation := conversation + "\n\n" + system + "\n\n";
    }
    assert conversation == Opening(system);
    for i := 0 to |messages|
      invariant conversation == Opening(system) + Turns(messages[..i])
    {
      ghost var before := conversation;
      var msg := messages[i];
      if msg.role == "user" {
        if i > 0 {
          conversation := conversation + HumanPrompt;
        }
        conversation := conversation + msg.content;
      } else {
        conversation := conversation + AiPrompt + msg.content;
      }
      AppendTurn(before, i, msg, conversation);
      TurnsStep(messages, i);
      Associative(Opening(system), Turns(messages[..i]), Turn(i, msg));
    }
    assert conversation == Conversation(messages, system) by {
      assert messages[..|messages|] == messages;
    }
    if !EndsWith(conversation, AiPrompt) {
      conversation := conversation + AiPrompt;
    }
    p := conversation;
  }

  /** `chat` */
  function Chat(apiKey: string, messages: seq<ChatMessage>, systemPrompt: Option<string>, api: Api): (r: string)
    ensures apiKey == "" ==> r == NoKeyChat
    ensures apiKey != "" ==>
      var system := if systemPrompt.None? || systemPrompt.value == "" then DefaultChatSystem else systemPrompt.value;
      r == WithFallback(api.messages(MessagesRequest(MainModel, system, MessagesFor(messages), 0.7, 2048)),
                        api.completions(CompletionRequest(FallbackModel, CompletionPrompt(messages, system), 0.7, 2048, [])),
                        "チャット中にエラーが発生しました: ")
  {
    if apiKey == "" then NoKeyChat
    else
      var system := if systemPrompt.None? || systemPrompt.value == "" then DefaultChatSystem else systemPrompt.value;
      WithFallback(api.messages(MessagesRequest(MainModel, system, MessagesFor(messages), 0.7, 2048)),
                   api.completions(CompletionRequest(FallbackModel, CompletionPrompt(messages, system), 0.7, 2048, [])),
                   "チャット中にエラーが発生しました: ")
  }

  /** Only the first message goes without a marker: every later user message opens
      with the human marker. */
  lemma {:induction false} TurnsOfUsers(messages: seq<ChatMessage>)
    requires forall k :: 0 <= k < |messages| ==> messages[k].role == "user"
    ensures |messages| >= 2 ==> Contains(Turns(messages), HumanPrompt)
  {
    if |messages| >= 2 {
      var init := messages[..|messages| - 1];
      var last := messages[|messages| - 1];
      var t := Turns(init) + HumanPrompt + last.content;
      assert Turns(messages) == t;
      assert t[|Turns(init)|..|Turns(init)| + |HumanPrompt|] == HumanPrompt;
      assert OccursAt(t, HumanPrompt, |Turns(init)|);
    }
  }

  // ---------------------------------------------------------------------------------
  // generate_title

  const TitleAsk := "以下のテキストの内容を端的に表現するタイトルを生成してください：\n"

  /** `s.replace(pat, "")`: occurrences removed left to right, without overlap. */
  function RemoveAll(s: string, pat: string): (r: string)
    requires |pat| > 0
    ensures |r| <= |s|
    ensures !Contains(s, pat) ==> r == s
    decreases |s|
  {
    if |s| < |pat| then
      assert !Contains(s, pat);
      s
    else if s[..|pat|] == pat then
      assert OccursAt(s, pat, 0);
      RemoveAll(s[|pat|..], pat)
    else
      var rest := RemoveAll(s[1..], pat);
      assert !Contains(s, pat) ==> !Contains(s[1..], pat) by {
        if Contains(s[1..], pat) {
          var j: int :| 0 <= j <= |s[1..]| && OccursAt(s[1..], pat, j);
          assert s[j + 1..j + 1 + |pat|] == s[1..][j..j + |pat|];
          assert OccursAt(s, pat, j + 1);
        }
      }
      assert s == [s[0]] + s[1..];
      [s[0]] + rest
  }

  /** Removing a single character leaves none of it, and removing it again changes
      nothing. */
  lemma {:induction false} RemoveCharGone(s: string, c: char)
    ensures c !in RemoveAll(s, [c])
    ensures RemoveAll(RemoveAll(s, [c]), [c]) == RemoveAll(s, [c])
    decreases |s|
  {
    if |s| >= 1 {
      RemoveCharGone(s[1..], c);
      if s[..1] != [c] {
        assert s[..1] == [s[0]];
        assert RemoveAll(s, [c]) == [s[0]] + RemoveAll(s[1..], [c]);
      }
    }
    var r := RemoveAll(s, [c]);
    forall j | 0 <= j <= |r| ensures !OccursAt(r, [c], j) {
      if j < |r| {
        assert r[j..j + 1] == [r[j]];
      }
    }
  }

  /** The cleanup of a generated title: stripped, "タイトル：" and "タイトル:" removed,
      stripped, the double quote removed twice, stripped. */
  function CleanTitle(title: string): (r: string)
    ensures '"' !in r
    ensures r == [] || (!IsSpace(r[0]) && !IsSpace(r[|r| - 1]))
  {
    var t := Strip(RemoveAll(RemoveAll(Strip(title), "タイトル："), "タイトル:"));
    var unquoted := RemoveAll(RemoveAll(t, "\""), "\"");
    RemoveCharGone(RemoveAll(t, "\""), '"');
    StripKeepsOut(unquoted, '"');
    Strip(unquoted)
  }

  /** Stripping adds no character. */
  lemma StripKeepsOut(s: string, c: char)
    requires c !in s
    ensures c !in Strip(s)
  {
    var k := StripStart(s);
    var r := Strip(s);
    forall i | 0 <= i < |r| ensures r[i] != c {
      assert r[i] == s[k + i];
    }
  }

  /** The second removal of the double quote finds nothing left to remove. */
  lemma SecondQuoteRemovalIsIdle(t: string)
    ensures RemoveAll(RemoveAll(t, "\""), "\"") == RemoveAll(t, "\"")
  {
    RemoveCharGone(t, '"');
  }

  /** `generate_title` */
  function GenerateTitle(apiKey: string, text: string, maxLength: Option<int>, ins: Instructions, api: Api): (r: string)
    ensures apiKey == "" ==> r == NoKeyTitle
    ensures apiKey != "" ==>
      var note := LengthNote(maxLength, "タイトル");
      var first := api.messages(MessagesRequest(MainModel, ins.titler, [ChatMessage("user", TitleAsk + text + note)], 0.3, 100));
      var second := api.completions(CompletionRequest(FallbackModel, HumanPrompt + " " + TitleAsk + text + note + " " + AiPrompt, 0.3, 100, []));
      && (first.Success? ==> r == CleanTitle(first.value))
      && (first.Failure? && second.Success? ==> r == CleanTitle(second.value))
      && (first.Failure? && second.Failure? ==> r == "タイトル生成中にエラーが発生しました: " + second.error)
  {
    if apiKey == "" then NoKeyTitle
    else
      var note := LengthNote(maxLength, "タイトル");
      var first := api.messages(MessagesRequest(MainModel, ins.titler, [ChatMessage("user", TitleAsk + text + note)], 0.3, 100));
      var second := api.completions(CompletionRequest(FallbackModel, HumanPrompt + " " + TitleAsk + text + note + " " + AiPrompt, 0.3, 100, []));
      if first.Success? then CleanTitle(first.value)
      else if second.Success? then CleanTitle(second.value)
      else "タイトル生成中にエラーが発生しました: " + second.error
  }

  /** Without a key, no operation depends on what the APIs would answer: none of them
      is called. */
  lemma NoKeyNoCalls(text: string, maxLength: Option<int>, messages: seq<ChatMessage>, system: Option<string>,
                     query: string, maxResults: int, ins: Instructions, a: Api, b: Api, parse: Parse)
    ensures Summarize("", text, maxLength, ins, a) == Summarize("", text, maxLength, ins, b)
    ensures Proofread("", text, ins, a, parse) == Proofread("", text, ins, b, parse)
    ensures Research("", query, maxResults, ins, a, parse, false) == Research("", query, maxResults, ins, b, parse, false)
    ensures Chat("", messages, system, a) == Chat("", messages, system, b)
    ensures GenerateTitle("", text, maxLength, ins, a) == GenerateTitle("", text, maxLength, ins, b)
  {
  }
}
