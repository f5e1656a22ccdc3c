/**
 * The chat-completion front end of the agent: model choice, reasoning arguments, the message list
 * and the keyword arguments of one completion call.
 */
module AgentLlm {
  import opened Wrappers
  import opened Tokens

  const DefaultChatModel: string := "gpt-5-chat-latest"
  const DefaultReasoningModel: string := "gpt-5"
  const DefaultReasoningEffort: string := "medium"
  const Temperature: real := 0.3
  const SearchWebTool: string := "search_web"
  const FetchPageTool: string := "fetch_page"

  /** The module-level settings read from the environment at import. */
  datatype LlmConfig = LlmConfig(chatModel: string, reasoningModel: string, reasoningEffort: string)

  /** `os.getenv(key, default)`: a set variable wins even when it is empty. */
  function GetEnv(env: map<string, string>, key: string, default: string): (v: string)
    ensures key in env ==> v == env[key]
    ensures key !in env ==> v == default
  {
    if key in env then env[key] else default
  }

  function ConfigFromEnv(env: map<string, string>): (c: LlmConfig)
    ensures "OPENAI_CHAT_MODEL" !in env ==> c.chatModel == DefaultChatModel
    ensures "OPENAI_REASONING_MODEL" !in env ==> c.reasoningModel == DefaultReasoningModel
    ensures "REASONING_EFFORT" !in env ==> c.reasoningEffort == DefaultReasoningEffort
  {
    LlmConfig(GetEnv(env, "OPENAI_CHAT_MODEL", DefaultChatModel),
              GetEnv(env, "OPENAI_REASONING_MODEL", DefaultReasoningModel),
              GetEnv(env, "REASONING_EFFORT", DefaultReasoningEffort))
  }

  /** `_maybe_reasoning_args`: `{"reasoning": {"effort": …}}` as `Some(effort)`, `{}` as `None`. */
  function MaybeReasoningArgs(cfg: LlmConfig): (r: Option<string>)
    ensures cfg.reasoningModel == "" <==> r.None?
    ensures r.Some? ==> r.value == cfg.reasoningEffort
  {
    if cfg.reasoningModel == "" then None else Some(cfg.reasoningEffort)
  }

  /** `_pick_model` */
  function PickModel(cfg: LlmConfig, reasoning: bool): (m: string)
    ensures reasoning && cfg.reasoningModel != "" ==> m == cfg.reasoningModel
    ensures !(reasoning && cfg.reasoningModel != "") ==> m == cfg.chatModel
  {
    if reasoning && cfg.reasoningModel != "" then cfg.reasoningModel else cfg.chatModel
  }

  /** `make_messages`: optional system prompt, the context as given, then the optional user turn. */
  function MakeMessages(systemPrompt: string, context: seq<ChatMsg>, userMsg: string): (ms: seq<ChatMsg>)
    ensures var s := if systemPrompt != "" then 1 else 0;
      var u := if userMsg != "" then 1 else 0;
      |ms| == s + |context| + u &&
      ms[s..s + |context|] == context &&
      (systemPrompt != "" ==> ms[0] == ChatMsg("system", systemPrompt)) &&
      (userMsg != "" ==> ms[|ms| - 1] == ChatMsg("user", userMsg))
  {
    (if systemPrompt != "" then [ChatMsg("system", systemPrompt)] else []) + context +
    (if userMsg != "" then [ChatMsg("user", userMsg)] else [])
  }

  /** With no prompt and no user text the context goes to the model unchanged. */
  lemma MakeMessagesBare(context: seq<ChatMsg>)
    ensures MakeMessages("", context, "") == context
  {
  }

  /** Only the system and user turns are added, so every message of another role is from the context. */
  lemma MakeMessagesRoles(systemPrompt: string, context: seq<ChatMsg>, userMsg: string)
    ensures forall m :: m in MakeMessages(systemPrompt, context, userMsg) ==>
      m in context || m == ChatMsg("system", systemPrompt) || m == ChatMsg("user", userMsg)
  {
  }

  /** The keyword arguments of `chat.completions.create`. */
  datatype ChatKwargs = ChatKwargs(model: string, messages: seq<ChatMsg>, temperature: real,
                                   tools: Option<seq<string>>, toolChoice: Option<string>,
                                   reasoningEffort: Option<string>)

  /** Python truthiness of the optional tool list. */
  predicate HasTools(tools: Option<seq<string>>) {
    tools.Some? && tools.value != []
  }

  /** The `kwargs` dictionary `chat_once` fills. */
  function ChatOnceKwargs(cfg: LlmConfig, messages: seq<ChatMsg>, tools: Option<seq<string>>,
                          useReasoning: bool): (k: ChatKwargs)
    ensures k.model == PickModel(cfg, useReasoning) && k.messages == messages && k.temperature == Temperature
    ensures k.toolChoice.Some? <==> HasTools(tools)
    ensures k.toolChoice.Some? ==> k.toolChoice == Some("auto") && k.tools == tools
    ensures k.tools.Some? <==> HasTools(tools)
    ensures k.reasoningEffort.Some? <==> useReasoning && cfg.reasoningModel != ""
    ensures k.reasoningEffort.Some? ==> k.reasoningEffort.value == cfg.reasoningEffort
  {
    var withTools := HasTools(tools);
    ChatKwargs(PickModel(cfg, useReasoning), messages, Temperature,
               if withTools then tools else None,
               if withTools then Some("auto") else None,
               if useReasoning then MaybeReasoningArgs(cfg) else None)
  }

  /** The names `tool_spec` declares. */
  const ToolNames: seq<string> := [SearchWebTool, FetchPageTool]

  /** A reasoning request goes to the reasoning model exactly when one is configured, and then carries the effort. */
  lemma ReasoningConsistent(cfg: LlmConfig, messages: seq<ChatMsg>, tools: Option<seq<string>>)
    ensures var k := ChatOnceKwargs(cfg, messages, tools, true);
      k.reasoningEffort.Some? <==> k.model == cfg.reasoningModel && cfg.reasoningModel != ""
    ensures ChatOnceKwargs(cfg, messages, tools, false).model == cfg.chatModel
    ensures ChatOnceKwargs(cfg, messages, tools, false).reasoningEffort.None?
  {
  }
}
