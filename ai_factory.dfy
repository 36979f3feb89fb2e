/**
 * The choice of AI provider (backend/app/providers/ai/factory.py) from the settings:
 * which provider serves research, which serves chat, and which a requested type names.
 */
module AiFactory {
  import opened Wrappers
  import opened Strings

  datatype ProviderKind = OpenAI | Anthropic

  /** The settings the choice reads; an empty key is an unset key. */
  datatype Settings = Settings(researchProvider: string, openaiApiKey: string, anthropicApiKey: string)

  /** `get_research_provider`: Anthropic when asked for and keyed; "google" and anything
      else fall back to OpenAI. */
  function ResearchProvider(s: Settings): (k: ProviderKind)
    ensures k == Anthropic <==> Lower(s.researchProvider) == "anthropic" && s.anthropicApiKey != ""
  {
    var name := Lower(s.researchProvider);
    if name == "anthropic" && s.anthropicApiKey != "" then Anthropic
    else if name == "google" then OpenAI
    else OpenAI
  }

  /** `get_chat_provider`: OpenAI when keyed, else Anthropic when keyed, else OpenAI. */
  function ChatProvider(s: Settings): (k: ProviderKind)
    ensures k == Anthropic <==> s.openaiApiKey == "" && s.anthropicApiKey != ""
  {
    if s.openaiApiKey != "" then OpenAI
    else if s.anthropicApiKey != "" then Anthropic
    else OpenAI
  }

  /** `get_provider`: no type means chat; the type is compared in lower case against
      research, chat, openai and anthropic; any other type means chat. */
  function GetProvider(s: Settings, providerType: Option<string>): (k: ProviderKind)
    ensures providerType.None? || providerType.value == "" ==> k == ChatProvider(s)
    ensures providerType.Some? && providerType.value != "" ==>
      var t := Lower(providerType.value);
      && (t == "research" ==> k == ResearchProvider(s))
      && (t == "openai" ==> k == OpenAI)
      && (t == "anthropic" ==> k == Anthropic)
      && (t !in {"research", "openai", "anthropic"} ==> k == ChatProvider(s))
  {
    if providerType.None? || providerType.value == "" then ChatProvider(s)
    else
      var t := Lower(providerType.value);
      if t == "research" then ResearchProvider(s)
      else if t == "chat" then ChatProvider(s)
      else if t == "openai" then OpenAI
      else if t == "anthropic" then Anthropic
      else ChatProvider(s)
  }

  /** The type is read case-insensitively: two spellings that lower to the same word
      choose the same provider. */
  lemma CaseInsensitiveType(s: Settings, a: string, b: string)
    requires Lower(a) == Lower(b)
    ensures GetProvider(s, Some(a)) == GetProvider(s, Some(b))
  {
    if a == "" || b == "" {
      assert |Lower(a)| == |a| && |Lower(b)| == |b|;
    }
  }

  /** Without any key, every request gets OpenAI, which answers with its own error
      message. */
  lemma NoKeysMeansOpenAI(s: Settings, providerType: Option<string>)
    requires s.openaiApiKey == "" && s.anthropicApiKey == ""
    requires providerType.None? || Lower(providerType.value) != "anthropic"
    ensures GetProvider(s, providerType) == OpenAI
  {
  }
}
