/**
 * The AI service (backend/app/services/ai/service.py): the wrappers that turn a
 * provider's exception into an answer, the validation and cleanup of `convert_text`, and
 * the fallback from the Yahoo! services to a chat whose reply is parsed as JSON. The
 * provider chosen by `AiFactory.GetProvider` is a bundle of oracles, each giving its
 * answer or the text of what it raised; the Yahoo! results are inputs, and `json.loads`
 * is an oracle.
 */
module AiService {
  import opened Wrappers
  import opened Strings
  import opened JsonValue
  import opened CodeFence
  import AnthropicProvider
  import YahooProvider

  type ChatMessage = AnthropicProvider.ChatMessage

  /** The provider's operations. */
  datatype Provider = Provider(
    summarize: (string, Option<int>) -> Result<string, string>,
    generateTitle: (string, Option<int>) -> Result<string, string>,
    proofread: string -> Result<Json, string>,
    chat: (seq<ChatMessage>, Option<string>) -> Result<string, string>)

  type Parse = string -> Option<Json>

  // ---------------------------------------------------------------------------------
  // The guarded operations

  const SummarizeError := "要約中にエラーが発生しました: "
  const TitleError := "タイトル生成中にエラーが発生しました: "
  const ProofreadError := "校正中にエラーが発生しました: "
  const ResearchError := "リサーチ中にエラーが発生しました: "
  const ChatError := "チャット中にエラーが発生しました: "

  /** `summarize`: never raises; an exception becomes its message after a fixed
      prefix. */
  function Summarize(p: Provider, text: string, maxLength: Option<int>): (r: string)
    ensures p.summarize(text, maxLength).Success? ==> r == p.summarize(text, maxLength).value
    ensures p.summarize(text, maxLength).Failure? ==> (StartsWith(r, SummarizeError)
      && r[|SummarizeError|..] == p.summarize(text, maxLength).error)
  {
    match p.summarize(text, maxLength)
    case Success(s) => s
    case Failure(e) => assert (SummarizeError + e)[..|SummarizeError|] == SummarizeError; SummarizeError + e
  }

  /** `generate_title`: never raises; an exception becomes its message after a fixed
      prefix. */
  function GenerateTitle(p: Provider, text: string, maxLength: Option<int>): (r: string)
    ensures p.generateTitle(text, maxLength).Success? ==> r == p.generateTitle(text, maxLength).value
    ensures p.generateTitle(text, maxLength).Failure? ==> (StartsWith(r, TitleError)
      && r[|TitleError|..] == p.generateTitle(text, maxLength).error)
  {
    match p.generateTitle(text, maxLength)
    case Success(s) => s
    case Failure(e) => assert (TitleError + e)[..|TitleError|] == TitleError; TitleError + e
  }

  /** `proofread`: an exception becomes the input with no corrections and an error. */
  function Proofread(p: Provider, text: string): (r: Json)
    ensures p.proofread(text).Success? ==> r == p.proofread(text).value
    ensures p.proofread(text).Failure? ==>
      r == JObject(map["corrected_text" := JStr(text), "corrections" := JArray([]),
                       "error" := JStr(ProofreadError + p.proofread(text).error)])
  {
    match p.proofread(text)
    case Success(j) => j
    case Failure(e) =>
      JObject(map["corrected_text" := JStr(text), "corrections" := JArray([]), "error" := JStr(ProofreadError + e)])
  }

  /** `research`, with the research provider's call: an exception becomes a one-item
      list holding the error. */
  function Research(research: (string, int) -> Result<Json, string>, query: string, maxResults: int): (r: Json)
    ensures research(query, maxResults).Success? ==> r == research(query, maxResults).value
    ensures research(query, maxResults).Failure? ==>
      r == JArray([JObject(map["title" := JStr("エラー"), "content" := JStr(ResearchError + research(query, maxResults).error)])])
  {
    match research(query, maxResults)
    case Success(j) => j
    case Failure(e) => JArray([JObject(map["title" := JStr("エラー"), "content" := JStr(ResearchError + e)])])
  }

  /** `chat`: never raises; an exception becomes its message after a fixed prefix. */
  function Chat(p: Provider, messages: seq<ChatMessage>, systemPrompt: Option<string>): (r: string)
    ensures p.chat(messages, systemPrompt).Success? ==> r == p.chat(messages, systemPrompt).value
    ensures p.chat(messages, systemPrompt).Failure? ==> (StartsWith(r, ChatError)
      && r[|ChatError|..] == p.chat(messages, systemPrompt).error)
  {
    match p.chat(messages, systemPrompt)
    case Success(s) => s
    case Failure(e) => assert (ChatError + e)[..|ChatError|] == ChatError; ChatError + e
  }

  /** The Anthropic provider never raises, so through the service its summary, title
      and chat answer arrive unchanged. */
  lemma AnthropicAnswersPassThrough(key: string, text: string, maxLength: Option<int>, messages: seq<ChatMessage>,
                                    system: Option<string>, ins: AnthropicProvider.Instructions,
                                    api: AnthropicProvider.Api, p: Provider)
    requires p.summarize(text, maxLength) == Success(AnthropicProvider.Summarize(key, text, maxLength, ins, api))
    requires p.generateTitle(text, maxLength) == Success(AnthropicProvider.GenerateTitle(key, text, maxLength, ins, api))
    requires p.chat(messages, system) == Success(AnthropicProvider.Chat(key, messages, system, api))
    ensures Summarize(p, text, maxLength) == AnthropicProvider.Summarize(key, text, maxLength, ins, api)
    ensures GenerateTitle(p, text, maxLength) == AnthropicProvider.GenerateTitle(key, text, maxLength, ins, api)
    ensures Chat(p, messages, system) == AnthropicProvider.Chat(key, messages, system, api)
  {
  }

  // ---------------------------------------------------------------------------------
  // convert_text

  const ValidTypes := ["kanji", "hiragana", "katakana"]
  const InvalidType := "無効な変換タイプです。有効な値: kanji, hiragana, katakana"
  const ConvertError := "テキスト変換中にエラーが発生しました: "

  function TypeName(t: string): string
    requires t in ValidTypes
  {
    if t == "kanji" then "漢字" else if t == "hiragana" then "ひらがな" else "カタカナ"
  }

  const Indent := "            "

  /** The system prompt of `convert_text`, with its source indentation. */
  function ConvertInstruction(name: string): string {
    "\n" + Indent + "あなたは日本語の専門家です。与えられた日本語テキストを" + name + "に変換してください。\n"
    + Indent + "変換後のテキストのみを返してください。説明は不要です。\n" + Indent
  }

  /** One line of the reply after both substitutions: a line opening with a fence is
      emptied; otherwise everything up to and including the line's first '：' goes. */
  function CleanLine(line: string): (r: string)
    ensures StartsWith(line, "```") ==> r == ""
    ensures !StartsWith(line, "```") && '：' !in line ==> r == line
    ensures !StartsWith(line, "```") && '：' in line ==>
      && |r| < |line|
      && line[|line| - |r| - 1] == '：' && '：' !in line[..|line| - |r| - 1]
      && line[|line| - |r|..] == r
  {
    if StartsWith(line, "```") then ""
    else if '：' in line then line[IndexOfChar(line, '：') + 1..]
    else line
  }

  function CleanLines(lines: seq<string>): (r: seq<string>)
    ensures |r| == |lines| && forall k :: 0 <= k < |r| ==> r[k] == CleanLine(lines[k])
  {
    seq(|lines|, k requires 0 <= k < |lines| => CleanLine(lines[k]))
  }

  /** The two multi-line substitutions of `convert_text`, line by line, then `strip()`. */
  function CleanReply(reply: string): string {
    Strip(Join(CleanLines(Split(reply, '\n')), "\n"))
  }

  /** `convert_text`: an unknown target type is refused without a call; otherwise the
      chat reply, cleaned, or the message of what the chat raised. */
  function ConvertText(p: Provider, text: string, targetType: string): (r: string)
    ensures targetType !in ValidTypes ==> r == InvalidType
    ensures targetType in ValidTypes ==>
      var reply := p.chat([AnthropicProvider.ChatMessage("user", "以下のテキストを" + TypeName(targetType) + "に変換してください：\n" + text)],
                          Some(ConvertInstruction(TypeName(targetType))));
      && (reply.Success? ==> r == CleanReply(reply.value))
      && (reply.Failure? ==> r == ConvertError + reply.error)
  {
    if targetType !in ValidTypes then InvalidType
    else
      var name := TypeName(targetType);
      match p.chat([AnthropicProvider.ChatMessage("user", "以下のテキストを" + name + "に変換してください：\n" + text)],
                   Some(ConvertInstruction(name)))
      case Success(reply) => CleanReply(reply)
      case Failure(e) => ConvertError + e
  }

  /** An unknown target type gives the same answer whatever the provider would do. */
  lemma InvalidTypeNoCall(p: Provider, q: Provider, text: string, targetType: string)
    requires targetType !in ValidTypes
    ensures ConvertText(p, text, targetType) == ConvertText(q, text, targetType) == InvalidType
  {
  }

  /** A reply with no fence line, no '：' and no surrounding whitespace is returned as
      it is. */
  lemma PlainReplyUnchanged(reply: string)
    requires forall k :: 0 <= k < |Split(reply, '\n')| ==>
      !StartsWith(Split(reply, '\n')[k], "```") && '：' !in Split(reply, '\n')[k]
    requires Strip(reply) == reply
    ensures CleanReply(reply) == reply
  {
    var lines := Split(reply, '\n');
    PlainLinesKept(lines);
    assert Join(lines, "\n") == reply;
  }

  /** Lines with no fence at their start and no '：' survive the cleanup. */
  lemma PlainLinesKept(lines: seq<string>)
    requires forall k :: 0 <= k < |lines| ==> !StartsWith(lines[k], "```") && '：' !in lines[k]
    ensures CleanLines(lines) == lines
  {
    var c := CleanLines(lines);
    forall k | 0 <= k < |lines| ensures c[k] == lines[k] {
      assert CleanLine(lines[k]) == lines[k];
    }
  }

  /** The result is stripped, and a reply made only of fence lines comes back empty. */
  lemma CleanReplyShape(reply: string)
    ensures CleanReply(reply) == [] || (!IsSpace(CleanReply(reply)[0]) && !IsSpace(CleanReply(reply)[|CleanReply(reply)| - 1]))
    ensures (forall k :: 0 <= k < |Split(reply, '\n')| ==> StartsWith(Split(reply, '\n')[k], "```")) ==>
      AllSpace(Join(CleanLines(Split(reply, '\n')), "\n"))
  {
    var lines := Split(reply, '\n');
    if forall k :: 0 <= k < |lines| ==> StartsWith(lines[k], "```") {
      JoinOfEmpties(CleanLines(lines));
    }
  }

  /** Joining empty lines leaves only newlines. */
  lemma {:induction false} JoinOfEmpties(parts: seq<string>)
    requires forall k :: 0 <= k < |parts| ==> parts[k] == ""
    ensures AllSpace(Join(parts, "\n"))
    decreases |parts|
  {
    if |parts| > 1 {
      JoinOfEmpties(parts[1..]);
      JoinStep(parts);
    }
  }

  /** `Join` peels off its first part. */
  lemma JoinStep(parts: seq<string>)
    requires |parts| > 1
    ensures Join(parts, "\n") == parts[0] + "\n" + Join(parts[1..], "\n")
  {
  }

  // ---------------------------------------------------------------------------------
  // add_furigana

  /** What `add_furigana` returns: the Yahoo! result, the parsed chat reply, or the
      input echoed with an error. */
  datatype FuriganaReply =
    | YahooFurigana(result: YahooProvider.Furigana)
    | ChatFurigana(value: Json)
    | Echo(html: string, plain: string, error: string)

  const FuriganaUnparsable := "読み仮名の追加に失敗しました。"
  const FuriganaError := "読み仮名の追加中にエラーが発生しました: "

  /** `add_furigana`: a Yahoo! result without an error is returned as it is; otherwise
      the chat is asked and its fenced reply parsed. */
  function AddFurigana(yahoo: YahooProvider.Furigana, p: Provider, parse: Parse, instruction: string, text: string)
    : (r: FuriganaReply)
    ensures yahoo.error.None? <==> r == YahooFurigana(yahoo)
    ensures yahoo.error.Some? ==>
      var reply := p.chat([AnthropicProvider.ChatMessage("user", "以下のテキストに読み仮名を追加してください：\n" + text)], Some(instruction));
      && (reply.Failure? ==> r == Echo(text, text, FuriganaError + reply.error))
      && (reply.Success? && parse(FenceText(reply.value)).None? ==> r == Echo(text, text, FuriganaUnparsable))
      && (reply.Success? && parse(FenceText(reply.value)).Some? ==> r == ChatFurigana(parse(FenceText(reply.value)).value))
  {
    if yahoo.error.None? then YahooFurigana(yahoo)
    else
      match p.chat([AnthropicProvider.ChatMessage("user", "以下のテキストに読み仮名を追加してください：\n" + text)], Some(instruction))
      case Failure(e) => Echo(text, text, FuriganaError + e)
      case Success(reply) =>
        match parse(FenceText(reply))
        case Some(j) => ChatFurigana(j)
        case None => Echo(text, text, FuriganaUnparsable)
  }

  /** Without a Yahoo! client id the service always asks the chat. */
  lemma FuriganaWithoutClientId(text: string, response: Result<YahooProvider.Response, string>, show: YahooProvider.Show,
                                p: Provider, parse: Parse, instruction: string)
    ensures !AddFurigana(YahooProvider.AddFurigana("", text, response, show), p, parse, instruction, text).YahooFurigana?
  {
  }

  // ---------------------------------------------------------------------------------
  // dictionary_lookup

  /** What `dictionary_lookup` returns. */
  datatype DictionaryReply =
    | YahooEntry(result: YahooProvider.Lookup)
    | ChatEntry(value: Json)
    | Unparsed(word: string, error: string, rawResponse: string)
    | LookupFailed(word: string, error: string)

  const DictionaryUnparsable := "辞書検索結果のパースに失敗しました。"
  const DictionaryError := "辞書検索中にエラーが発生しました: "

  /** `"error" in result`: both shapes of the Yahoo! lookup carry the key, the formatted
      entry with the value None when nothing went wrong. */
  predicate HasErrorKey(l: YahooProvider.Lookup) {
    match l
    case Entry(_, _, _, _, _) => true
    case Failed(_, _) => true
  }

  /** `result.get("error")` is truthy: the check the fallback evidently intends. */
  predicate ErrorIsSet(l: YahooProvider.Lookup) {
    l.Failed? || l.error.Some?
  }

  /** `dictionary_lookup`, testing the Yahoo! result with `"error" in result` as written
      (`asWritten`) or by the truth of its error. */
  function DictionaryLookup(yahoo: YahooProvider.Lookup, p: Provider, parse: Parse, instruction: string, word: string,
                            asWritten: bool): (r: DictionaryReply)
    ensures (if asWritten then HasErrorKey(yahoo) else ErrorIsSet(yahoo)) <==> !r.YahooEntry?
    ensures r.YahooEntry? ==> r.result == yahoo
    ensures !r.YahooEntry? ==>
      var reply := p.chat([AnthropicProvider.ChatMessage("user", "以下の単語を辞書で調べてください：\n" + word)], Some(instruction));
      && (reply.Failure? ==> r == LookupFailed(word, DictionaryError + reply.error))
      && (reply.Success? && parse(FenceText(reply.value)).None? ==> r == Unparsed(word, DictionaryUnparsable, reply.value))
      && (reply.Success? && parse(FenceText(reply.value)).Some? ==> r == ChatEntry(parse(FenceText(reply.value)).value))
  {
    var fallBack := if asWritten then HasErrorKey(yahoo) else ErrorIsSet(yahoo);
    if !fallBack then YahooEntry(yahoo)
    else
      match p.chat([AnthropicProvider.ChatMessage("user", "以下の単語を辞書で調べてください：\n" + word)], Some(instruction))
      case Failure(e) => LookupFailed(word, DictionaryError + e)
      case Success(reply) =>
        match parse(FenceText(reply))
        case Some(j) => ChatEntry(j)
        case None => Unparsed(word, DictionaryUnparsable, reply)
  }

  /** As written, no Yahoo! lookup is ever returned, not even an entry without error
      such as the one for a body without "result". */
  lemma AsWrittenYahooDictionaryDiscarded(yahoo: YahooProvider.Lookup, p: Provider, parse: Parse, instruction: string,
                                          word: string, clientId: string, keyOrder: map<string, Json> -> seq<string>)
    requires clientId != ""
    ensures !DictionaryLookup(yahoo, p, parse, instruction, word, true).YahooEntry?
    ensures var entry := YahooProvider.DictionaryLookup(clientId, word, Success(YahooProvider.Response(200, JObject(map[]))), keyOrder);
      entry.Entry? && entry.error.None? && !DictionaryLookup(entry, p, parse, instruction, word, true).YahooEntry?
  {
  }

  /** Corrected: an entry without error is returned as it is; a Yahoo! failure still
      goes to the chat. */
  lemma CorrectedYahooDictionaryKept(yahoo: YahooProvider.Lookup, p: Provider, parse: Parse, instruction: string, word: string)
    ensures yahoo.Entry? && yahoo.error.None? ==> DictionaryLookup(yahoo, p, parse, instruction, word, false) == YahooEntry(yahoo)
    ensures yahoo.Failed? ==>
      DictionaryLookup(yahoo, p, parse, instruction, word, false) == DictionaryLookup(yahoo, p, parse, instruction, word, true)
  {
  }
}
