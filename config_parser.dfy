/** The environment-backed settings reader of the bot. */
module ConfigParser {
  import opened Wrappers
  import opened Strings

  const DefaultImageMessageAffix: string := "Ти отримав зображення."
  const DefaultImageCaptionAffix: string := "Під ним такий підпис відправника:"
  const DefaultImageSenceAffix: string := "На картинці зображено:"
  const DefaultApiMode: string := "responses"
  const DefaultMaxTokens: string := "3000"
  const DefaultMaxHistoryLength: string := "124000"
  const Bar: string := " | "

  /** `_format_message`: `None` becomes "", and every " | " a line break. */
  function FormatMessage(message: Option<string>): (r: string)
    ensures message.None? ==> r == ""
    ensures message.Some? ==> |r| == |message.value| - 2 * CountOcc(message.value, Bar)
  {
    if message.None? then "" else
      ReplaceLength(message.value);
      Replace(message.value, Bar, "\n")
  }

  /** Each replaced " | " shortens the text by two characters. */
  lemma {:induction false} ReplaceLength(s: string)
    ensures |Replace(s, Bar, "\n")| == |s| - 2 * CountOcc(s, Bar)
    decreases |s|
  {
    if |s| >= |Bar| {
      if s[..|Bar|] == Bar {
        ReplaceLength(s[|Bar|..]);
      } else {
        ReplaceLength(s[1..]);
      }
    }
  }

  /** A message without any '|' is kept as it is. */
  lemma {:induction false} FormatWithoutBars(s: string)
    requires forall i :: 0 <= i < |s| ==> s[i] != '|'
    ensures FormatMessage(Some(s)) == s
    decreases |s|
  {
    if |s| >= |Bar| {
      assert s[..|Bar|] != Bar by {
        assert s[..|Bar|][1] == s[1];
      }
      FormatWithoutBars(s[1..]);
      assert [s[0]] + s[1..] == s;
    }
  }

  /** `os.getenv(key)` */
  function GetEnv(env: map<string, string>, key: string): (v: Option<string>)
    ensures v.Some? <==> key in env
    ensures v.Some? ==> v.value == env[key]
  {
    if key in env then Some(env[key]) else None
  }

  /** `os.getenv(key, default)` */
  function GetEnvOr(env: map<string, string>, key: string, default: string): string {
    if key in env then env[key] else default
  }

  /** `value.strip().lower() in {"1", "true", "yes", "on"}` */
  predicate FlagValue(value: string) {
    Lower(Strip(value)) in {"1", "true", "yes", "on"}
  }

  /** The numeric value of a non-empty run of ASCII digits. */
  function DigitsValue(s: string): nat
    requires forall i :: 0 <= i < |s| ==> IsAsciiDigit(s[i])
    decreases |s|
  {
    if |s| == 0 then 0
    else
      assert IsAsciiDigit(s[|s| - 1]);
      var d: nat := s[|s| - 1] as int - '0' as int;
      DigitsValue(s[..|s| - 1]) * 10 + d
  }

  /** `int(s)` for an optional sign and ASCII digits around blanks; anything else raises `ValueError`. */
  function ParseInt(s: string): (r: Result<int>)
    ensures r.Ok? ==> Strip(s) != ""
  {
    var t := Strip(s);
    var neg := |t| > 0 && t[0] == '-';
    var body := if |t| > 0 && (t[0] == '-' || t[0] == '+') then t[1..] else t;
    if body != "" && forall i :: 0 <= i < |body| ==> IsAsciiDigit(body[i]) then
      var v: int := DigitsValue(body);
      Ok(if neg then -v else v)
    else Err("invalid literal for int()")
  }

  lemma {:induction false} DigitsOfNat(n: nat)
    ensures DigitsValue(NatToString(n)) == n
    decreases n
  {
    if n >= 10 {
      DigitsOfNat(n / 10);
      var s := NatToString(n);
      assert s[..|s| - 1] == NatToString(n / 10);
    }
  }

  /** `int(str(n)) == n` */
  lemma ParseIntRoundTrip(n: int)
    ensures ParseInt(IntToString(n)) == Ok(n)
  {
    if n < 0 {
      ParseNegative(-n);
    } else {
      ParseNonNegative(n);
    }
  }

  /** A plain digit string reads back as its number. */
  lemma ParseNonNegative(n: nat)
    ensures ParseInt(NatToString(n)) == Ok(n)
  {
    var s := NatToString(n);
    StripNoSpace(s);
    assert s[0] != '-' && s[0] != '+';
    DigitsOfNat(n);
  }

  /** A minus sign in front of a digit string reads back as the negated number. */
  lemma ParseNegative(m: nat)
    requires m > 0
    ensures ParseInt("-" + NatToString(m)) == Ok(-(m as int))
  {
    var d := NatToString(m);
    var s := "-" + d;
    assert s[1..] == d;
    assert forall i :: 0 <= i < |s| ==> !IsSpace(s[i]) by {
      assert forall i :: 1 <= i < |s| ==> s[i] == d[i - 1];
    }
    StripNoSpace(s);
    DigitsOfNat(m);
  }

  /** The fields `ConfigReader.__init__` sets. */
  datatype Config = Config(
    gptPrompt: string, voiceMessageAffix: string, imageMessageAffix: string, imageCaptionAffix: string,
    imageSenceAffix: string, password: string,
    apiKey: Option<string>, gptModel: Option<string>, apiMode: string, reasoningEffort: Option<string>,
    whisperModel: Option<string>, ttsModel: Option<string>, vocalizerVoice: Option<string>,
    searchEnabled: bool, webSearchEnabled: bool,
    botToken: Option<string>,
    audioFolderPath: Option<string>, imageFolderPath: Option<string>, filesFolderPath: Option<string>,
    maxTokens: int, maxHistoryLength: int)

  /** `ConfigReader()`: `Err` where one of the two `int(...)` conversions raises. */
  function ReadConfig(env: map<string, string>): (r: Result<Config>)
    ensures r.Err? <==> ParseInt(GetEnvOr(env, "LIMITS_MAX_TOKENS", DefaultMaxTokens)).Err? ||
                        ParseInt(GetEnvOr(env, "LIMITS_MAX_HISTORY_LENGTH", DefaultMaxHistoryLength)).Err?
    ensures r.Ok? ==> var c := r.value;
      c.gptPrompt == FormatMessage(GetEnv(env, "SYSTEM_MESSAGES_GPT_PROMPT")) &&
      c.voiceMessageAffix == FormatMessage(GetEnv(env, "SYSTEM_MESSAGES_VOICE_MESSAGE_AFFIX")) &&
      c.imageMessageAffix == FormatMessage(Some(GetEnvOr(env, "SYSTEM_MESSAGES_IMAGE_MESSAGE_AFFIX", DefaultImageMessageAffix))) &&
      c.imageCaptionAffix == FormatMessage(Some(GetEnvOr(env, "SYSTEM_MESSAGES_IMAGE_CAPTION_AFFIX", DefaultImageCaptionAffix))) &&
      c.imageSenceAffix == FormatMessage(Some(GetEnvOr(env, "SYSTEM_MESSAGES_IMAGE_SENCE_AFFIX", DefaultImageSenceAffix))) &&
      c.password == FormatMessage(GetEnv(env, "PASSWORD"))
    ensures r.Ok? ==> var c := r.value;
      c.apiKey == GetEnv(env, "OPENAI_API_KEY") && c.gptModel == GetEnv(env, "OPENAI_GPT_MODEL") &&
      c.apiMode == GetEnvOr(env, "OPENAI_API_MODE", DefaultApiMode) &&
      c.reasoningEffort == GetEnv(env, "OPENAI_REASONING_EFFORT") &&
      c.whisperModel == GetEnv(env, "OPENAI_WHISPER_MODEL") && c.ttsModel == GetEnv(env, "OPENAI_TTS_MODEL") &&
      c.vocalizerVoice == GetEnv(env, "OPENAI_VOCALIZER_VOICE") && c.botToken == GetEnv(env, "MYAPI_BOT_TOKEN")
    // an unset flag is on; a set one is on iff its stripped, lowercased value is 1, true, yes or on
    ensures r.Ok? ==> var c := r.value;
      (c.searchEnabled <==> "OPENAI_SEARCH_ENABLED" !in env || FlagValue(env["OPENAI_SEARCH_ENABLED"])) &&
      (c.webSearchEnabled <==> "OPENAI_WEB_SEARCH_ENABLED" !in env || FlagValue(env["OPENAI_WEB_SEARCH_ENABLED"]))
    ensures r.Ok? ==> var c := r.value;
      c.audioFolderPath == GetEnv(env, "FILE_PATHS_AUDIO_FOLDER") &&
      c.imageFolderPath == GetEnv(env, "FILE_PATHS_IMAGE_FOLDER") &&
      c.filesFolderPath == GetEnv(env, "FILE_PATHS_FILES_FOLDER") &&
      Ok(c.maxTokens) == ParseInt(GetEnvOr(env, "LIMITS_MAX_TOKENS", DefaultMaxTokens)) &&
      Ok(c.maxHistoryLength) == ParseInt(GetEnvOr(env, "LIMITS_MAX_HISTORY_LENGTH", DefaultMaxHistoryLength))
  {
    FlagDefaults();
    var maxTokens := ParseInt(GetEnvOr(env, "LIMITS_MAX_TOKENS", DefaultMaxTokens));
    var maxHistory := ParseInt(GetEnvOr(env, "LIMITS_MAX_HISTORY_LENGTH", DefaultMaxHistoryLength));
    if maxTokens.Err? then Err(maxTokens.error)
    else if maxHistory.Err? then Err(maxHistory.error)
    else Ok(Config(
      FormatMessage(GetEnv(env, "SYSTEM_MESSAGES_GPT_PROMPT")),
      FormatMessage(GetEnv(env, "SYSTEM_MESSAGES_VOICE_MESSAGE_AFFIX")),
      FormatMessage(Some(GetEnvOr(env, "SYSTEM_MESSAGES_IMAGE_MESSAGE_AFFIX", DefaultImageMessageAffix))),
      FormatMessage(Some(GetEnvOr(env, "SYSTEM_MESSAGES_IMAGE_CAPTION_AFFIX", DefaultImageCaptionAffix))),
      FormatMessage(Some(GetEnvOr(env, "SYSTEM_MESSAGES_IMAGE_SENCE_AFFIX", DefaultImageSenceAffix))),
      FormatMessage(GetEnv(env, "PASSWORD")),
      GetEnv(env, "OPENAI_API_KEY"), GetEnv(env, "OPENAI_GPT_MODEL"),
      GetEnvOr(env, "OPENAI_API_MODE", DefaultApiMode), GetEnv(env, "OPENAI_REASONING_EFFORT"),
      GetEnv(env, "OPENAI_WHISPER_MODEL"), GetEnv(env, "OPENAI_TTS_MODEL"), GetEnv(env, "OPENAI_VOCALIZER_VOICE"),
      FlagValue(GetEnvOr(env, "OPENAI_SEARCH_ENABLED", "true")),
      FlagValue(GetEnvOr(env, "OPENAI_WEB_SEARCH_ENABLED", "true")),
      GetEnv(env, "MYAPI_BOT_TOKEN"),
      GetEnv(env, "FILE_PATHS_AUDIO_FOLDER"), GetEnv(env, "FILE_PATHS_IMAGE_FOLDER"),
      GetEnv(env, "FILE_PATHS_FILES_FOLDER"),
      maxTokens.value, maxHistory.value))
  }

  /** A value of one of the getter dictionaries. */
  datatype Setting = Text(text: Option<string>) | Flag(flag: bool) | Number(number: int)

  function SystemMessages(c: Config): (d: map<string, string>)
    ensures d.Keys == {"gpt_prompt", "voice_message_affix", "image_message_affix", "image_caption_affix",
                       "image_sence_affix", "password"}
    ensures d["gpt_prompt"] == c.gptPrompt && d["voice_message_affix"] == c.voiceMessageAffix &&
      d["image_message_affix"] == c.imageMessageAffix && d["image_caption_affix"] == c.imageCaptionAffix &&
      d["image_sence_affix"] == c.imageSenceAffix && d["password"] == c.password
  {
    map["gpt_prompt" := c.gptPrompt, "voice_message_affix" := c.voiceMessageAffix,
        "image_message_affix" := c.imageMessageAffix, "image_caption_affix" := c.imageCaptionAffix,
        "image_sence_affix" := c.imageSenceAffix, "password" := c.password]
  }

  function OpenAiSettings(c: Config): (d: map<string, Setting>)
    ensures d.Keys == {"api_key", "gpt_model", "whisper_model", "tts_model", "vocalizer_voice", "api_mode",
                       "reasoning_effort", "search_enabled", "web_search_enabled"}
    ensures d["api_key"] == Text(c.apiKey) && d["gpt_model"] == Text(c.gptModel) &&
      d["whisper_model"] == Text(c.whisperModel) && d["tts_model"] == Text(c.ttsModel) &&
      d["vocalizer_voice"] == Text(c.vocalizerVoice) && d["api_mode"] == Text(Some(c.apiMode)) &&
      d["reasoning_effort"] == Text(c.reasoningEffort)
    ensures d["search_enabled"] == Flag(c.searchEnabled) && d["web_search_enabled"] == Flag(c.webSearchEnabled)
  {
    map["api_key" := Text(c.apiKey), "gpt_model" := Text(c.gptModel), "whisper_model" := Text(c.whisperModel),
        "tts_model" := Text(c.ttsModel), "vocalizer_voice" := Text(c.vocalizerVoice),
        "api_mode" := Text(Some(c.apiMode)), "reasoning_effort" := Text(c.reasoningEffort),
        "search_enabled" := Flag(c.searchEnabled), "web_search_enabled" := Flag(c.webSearchEnabled)]
  }

  function ApiSettings(c: Config): (d: map<string, Setting>)
    ensures d == map["bot_token" := Text(c.botToken)]
  {
    map["bot_token" := Text(c.botToken)]
  }

  function FilePathsAndLimits(c: Config): (d: map<string, Setting>)
    ensures d.Keys == {"audio_folder_path", "image_folder_path", "files_folder_path", "max_tokens",
                       "max_history_length"}
    ensures d["audio_folder_path"] == Text(c.audioFolderPath) && d["image_folder_path"] == Text(c.imageFolderPath) &&
      d["files_folder_path"] == Text(c.filesFolderPath)
    ensures d["max_tokens"] == Number(c.maxTokens) && d["max_history_length"] == Number(c.maxHistoryLength)
  {
    map["audio_folder_path" := Text(c.audioFolderPath), "image_folder_path" := Text(c.imageFolderPath),
        "files_folder_path" := Text(c.filesFolderPath), "max_tokens" := Number(c.maxTokens),
        "max_history_length" := Number(c.maxHistoryLength)]
  }

  /** The default limits parse to 3000 and 124000. */
  lemma DefaultLimitsParse()
    ensures ParseInt(DefaultMaxTokens) == Ok(3000)
    ensures ParseInt(DefaultMaxHistoryLength) == Ok(124000)
  {
    assert IntToString(3000) == DefaultMaxTokens by {
      assert NatToString(300) == "300";
    }
    assert IntToString(124000) == DefaultMaxHistoryLength by {
      assert NatToString(12400) == "12400";
    }
    ParseIntRoundTrip(3000);
    ParseIntRoundTrip(124000);
  }

  /** A search flag left unset is on; "0" and "false" turn it off. */
  lemma FlagDefaults()
    ensures FlagValue("true")
    ensures !FlagValue("0") && !FlagValue("false")
  {
    LowerPlain("true");
    LowerPlain("0");
    LowerPlain("false");
  }

  /** A set flag is read through strip and lower: " Yes " turns search on, "Off" turns web search off. */
  lemma FlagsFromEnv(env: map<string, string>)
    requires "OPENAI_SEARCH_ENABLED" in env && env["OPENAI_SEARCH_ENABLED"] == " Yes "
    requires "OPENAI_WEB_SEARCH_ENABLED" in env && env["OPENAI_WEB_SEARCH_ENABLED"] == "Off"
    ensures ReadConfig(env).Ok? ==> ReadConfig(env).value.searchEnabled && !ReadConfig(env).value.webSearchEnabled
  {
    FlagSpellings();
  }

  /** Blanks around a flag and its case do not matter. */
  lemma FlagSpellings()
    ensures FlagValue(" Yes ") && !FlagValue("Off")
  {
    var yes := " Yes ";
    assert TrimLeft(yes) == yes[1..];
    assert TrimRight(yes[1..]) == "Yes" by {
      assert yes[1..][..4] == "Yes ";
      StripNoSpace("Yes");
    }
    assert Lower("Yes") == "yes";
    assert Lower(Strip("Off")) == "off" by {
      StripNoSpace("Off");
    }
  }

  /** A stripped text in lower case is its own key. */
  lemma LowerPlain(s: string)
    requires forall i :: 0 <= i < |s| ==> 'a' <= s[i] <= 'z' || IsAsciiDigit(s[i])
    ensures Lower(Strip(s)) == s
  {
    StripNoSpace(s);
  }

  /** With an empty environment every default applies and both search flags are on. */
  lemma DefaultsWhenMissing()
    ensures var r := ReadConfig(map[]);
      r.Ok? &&
      r.value.imageMessageAffix == FormatMessage(Some(DefaultImageMessageAffix)) &&
      r.value.imageCaptionAffix == FormatMessage(Some(DefaultImageCaptionAffix)) &&
      r.value.imageSenceAffix == FormatMessage(Some(DefaultImageSenceAffix)) &&
      r.value.apiMode == DefaultApiMode && r.value.imageFolderPath.None? &&
      r.value.maxTokens == 3000 && r.value.maxHistoryLength == 124000 &&
      r.value.searchEnabled && r.value.webSearchEnabled
  {
    DefaultLimitsParse();
    FlagDefaults();
  }

  /** A set variable is read verbatim (after the " | " rewrite for messages), and numbers are parsed. */
  lemma ReadsFromEnv(env: map<string, string>, n: int)
    requires "LIMITS_MAX_TOKENS" in env && env["LIMITS_MAX_TOKENS"] == IntToString(n)
    requires "LIMITS_MAX_HISTORY_LENGTH" !in env
    requires "PASSWORD" in env && forall i :: 0 <= i < |env["PASSWORD"]| ==> env["PASSWORD"][i] != '|'
    ensures var r := ReadConfig(env);
      r.Ok? && FilePathsAndLimits(r.value)["max_tokens"] == Number(n) &&
      SystemMessages(r.value)["password"] == env["PASSWORD"] &&
      OpenAiSettings(r.value)["api_key"] == Text(GetEnv(env, "OPENAI_API_KEY"))
  {
    ParseIntRoundTrip(n);
    DefaultLimitsParse();
    FormatWithoutBars(env["PASSWORD"]);
  }
}
