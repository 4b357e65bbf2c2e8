/**
 * The worker's request and response records (services/worker/src/schemas.py)
 * and what pydantic's `model_validate` accepts for each of them when it is
 * given a decoded JSON value: required keys, defaults, nullable fields and
 * closed `Literal` sets. Unknown keys are ignored, as pydantic does by default.
 * Each `...ToJson` is the record's `model_dump()`.
 */
module Schemas {
  import opened Common
  import opened Json

  datatype Role = User | Assistant

  datatype ChatMessage = ChatMessage(role: Role, content: string)

  datatype ErrorType = Grammar | Spelling | Punctuation | Style | Vocabulary

  /** `text_corrected` is nullable but has no default: the key must be present. */
  datatype FeedbackItem = FeedbackItem(
    userText: string,
    errorType: ErrorType,
    explanation: string,
    textCorrected: Option<string>)

  datatype LanguageFeedback = LanguageFeedback(items: seq<FeedbackItem>, overallComment: string)

  /** `Meta.level` admits C2, unlike the prompt tables. */
  datatype MetaLevel = A1 | A2 | B1 | B2 | C1 | C2

  datatype Platform = Telegram | Web

  datatype Meta = Meta(level: Option<MetaLevel>, platform: Platform)

  /** `session_id` is nullable here but required; `history` defaults to `[]`, `meta` to None. */
  datatype ReplyRequest = ReplyRequest(
    userId: string,
    sessionId: Option<string>,
    message: string,
    history: seq<ChatMessage>,
    meta: Option<Meta>)

  /** Unlike ReplyRequest, `session_id` is a plain, non-null string. */
  datatype FeedbackRequest = FeedbackRequest(
    userId: string,
    sessionId: string,
    message: string,
    meta: Option<Meta>)

  // ---------------------------------------------------------------- literals

  function RoleName(r: Role): string
  {
    match r
    case User => "user"
    case Assistant => "assistant"
  }

  /** `Literal['user', 'assistant']` */
  function ParseRole(s: string): (r: Option<Role>)
    ensures r.Some? <==> s == "user" || s == "assistant"
    ensures r.Some? ==> RoleName(r.value) == s
  {
    if s == "user" then Some(User)
    else if s == "assistant" then Some(Assistant)
    else None
  }

  function ErrorTypeName(t: ErrorType): string
  {
    match t
    case Grammar => "grammar"
    case Spelling => "spelling"
    case Punctuation => "punctuation"
    case Style => "style"
    case Vocabulary => "vocabulary"
  }

  /** The closed set of five error types a FeedbackItem accepts. */
  function ParseErrorType(s: string): (r: Option<ErrorType>)
    ensures r.Some? <==> s in {"grammar", "spelling", "punctuation", "style", "vocabulary"}
    ensures r.Some? ==> ErrorTypeName(r.value) == s
  {
    if s == "grammar" then Some(Grammar)
    else if s == "spelling" then Some(Spelling)
    else if s == "punctuation" then Some(Punctuation)
    else if s == "style" then Some(Style)
    else if s == "vocabulary" then Some(Vocabulary)
    else None
  }

  function MetaLevelName(l: MetaLevel): string
  {
    match l
    case A1 => "A1"
    case A2 => "A2"
    case B1 => "B1"
    case B2 => "B2"
    case C1 => "C1"
    case C2 => "C2"
  }

  function ParseMetaLevel(s: string): (r: Option<MetaLevel>)
    ensures r.Some? <==> s in {"A1", "A2", "B1", "B2", "C1", "C2"}
    ensures r.Some? ==> MetaLevelName(r.value) == s
  {
    if s == "A1" then Some(A1)
    else if s == "A2" then Some(A2)
    else if s == "B1" then Some(B1)
    else if s == "B2" then Some(B2)
    else if s == "C1" then Some(C1)
    else if s == "C2" then Some(C2)
    else None
  }

  function PlatformName(p: Platform): string
  {
    match p
    case Telegram => "telegram"
    case Web => "web"
  }

  function ParsePlatform(s: string): (r: Option<Platform>)
    ensures r.Some? <==> s == "telegram" || s == "web"
    ensures r.Some? ==> PlatformName(r.value) == s
  {
    if s == "telegram" then Some(Telegram)
    else if s == "web" then Some(Web)
    else None
  }

  // ---------------------------------------------------------------- fields

  /** A required `str` field. */
  function StrField(fields: seq<(string, Json)>, key: string): (r: Option<string>)
    ensures r.Some? <==> Get(fields, key).Some? && Get(fields, key).value.JStr?
  {
    match Get(fields, key)
    case Some(JStr(s)) => Some(s)
    case _ => None
  }

  /** A required `str | None` field: Some(None) for JSON null, None when invalid. */
  function NullableStrField(fields: seq<(string, Json)>, key: string): (r: Option<Option<string>>)
    ensures r.Some? <==> Get(fields, key).Some? && (Get(fields, key).value.JStr? || Get(fields, key).value.JNull?)
  {
    match Get(fields, key)
    case Some(JStr(s)) => Some(Some(s))
    case Some(JNull) => Some(None)
    case _ => None
  }

  /** The key is present and holds a JSON string. */
  predicate HasStr(fields: seq<(string, Json)>, key: string)
  {
    Get(fields, key).Some? && Get(fields, key).value.JStr?
  }

  /** The key is present and holds one of the strings of a `Literal`. */
  predicate HasStrIn(fields: seq<(string, Json)>, key: string, allowed: set<string>)
  {
    HasStr(fields, key) && Get(fields, key).value.s in allowed
  }

  /** The key is present and holds a string or null. */
  predicate HasNullableStr(fields: seq<(string, Json)>, key: string)
  {
    HasStr(fields, key) || Get(fields, key) == Some(JNull)
  }

  function NullableStrToJson(o: Option<string>): Json
  {
    match o
    case Some(s) => JStr(s)
    case None => JNull
  }

  // ---------------------------------------------------------------- validation

  /** `ChatMessage`: `role` must be "user" or "assistant" and `content` a string. */
  function ValidateChatMessage(j: Json): (r: Option<ChatMessage>)
    ensures r.Some? <==> j.JObj? && HasStrIn(j.fields, "role", {"user", "assistant"}) && HasStr(j.fields, "content")
    ensures r.Some? ==> (Get(j.fields, "role") == Some(JStr(RoleName(r.value.role)))
                      && Get(j.fields, "content") == Some(JStr(r.value.content)))
  {
    if !j.JObj? then None
    else
      var role := StrField(j.fields, "role");
      var content := StrField(j.fields, "content");
      if role.Some? && content.Some? && ParseRole(role.value).Some?
      then Some(ChatMessage(ParseRole(role.value).value, content.value))
      else None
  }

  function ChatMessageToJson(m: ChatMessage): Json
  {
    JObj([("role", JStr(RoleName(m.role))), ("content", JStr(m.content))])
  }

  /** `list[ChatMessage]`: every element must validate, or the whole list fails. */
  function ValidateChatMessages(js: seq<Json>): (r: Option<seq<ChatMessage>>)
    ensures r.Some? ==> |r.value| == |js|
    ensures r.Some? <==> forall i :: 0 <= i < |js| ==> ValidateChatMessage(js[i]).Some?
    ensures r.Some? ==> forall i :: 0 <= i < |js| ==> Some(r.value[i]) == ValidateChatMessage(js[i])
  {
    if js == [] then Some([])
    else
      var head := ValidateChatMessage(js[0]);
      var tail := ValidateChatMessages(js[1..]);
      if head.Some? && tail.Some? then Some([head.value] + tail.value) else None
  }

  function ChatMessagesToJson(ms: seq<ChatMessage>): (r: seq<Json>)
    ensures |r| == |ms|
  {
    if ms == [] then [] else [ChatMessageToJson(ms[0])] + ChatMessagesToJson(ms[1..])
  }

  /**
   * `FeedbackItem`: three strings, one of the five error types, and a
   * `text_corrected` key that must be present but may hold null.
   */
  function ValidateFeedbackItem(j: Json): (r: Option<FeedbackItem>)
    ensures r.Some? <==>
      j.JObj? && HasStr(j.fields, "user_text") && HasStr(j.fields, "explanation")
      && HasStrIn(j.fields, "error_type", {"grammar", "spelling", "punctuation", "style", "vocabulary"})
      && HasNullableStr(j.fields, "text_corrected")
    ensures r.Some? ==> (Get(j.fields, "user_text") == Some(JStr(r.value.userText))
                      && Get(j.fields, "error_type") == Some(JStr(ErrorTypeName(r.value.errorType)))
                      && Get(j.fields, "explanation") == Some(JStr(r.value.explanation))
                      && Get(j.fields, "text_corrected") == Some(NullableStrToJson(r.value.textCorrected)))
  {
    if !j.JObj? then None
    else
      var u := StrField(j.fields, "user_text");
      var t := StrField(j.fields, "error_type");
      var e := StrField(j.fields, "explanation");
      var c := NullableStrField(j.fields, "text_corrected");
      if u.Some? && t.Some? && e.Some? && c.Some? && ParseErrorType(t.value).Some?
      then Some(FeedbackItem(u.value, ParseErrorType(t.value).value, e.value, c.value))
      else None
  }

  function FeedbackItemToJson(it: FeedbackItem): Json
  {
    JObj([("user_text", JStr(it.userText)),
          ("error_type", JStr(ErrorTypeName(it.errorType))),
          ("explanation", JStr(it.explanation)),
          ("text_corrected", NullableStrToJson(it.textCorrected))])
  }

  /** `list[FeedbackItem]`: every element must validate, or the whole list fails. */
  function ValidateFeedbackItems(js: seq<Json>): (r: Option<seq<FeedbackItem>>)
    ensures r.Some? ==> |r.value| == |js|
    ensures r.Some? <==> forall i :: 0 <= i < |js| ==> ValidateFeedbackItem(js[i]).Some?
    ensures r.Some? ==> forall i :: 0 <= i < |js| ==> Some(r.value[i]) == ValidateFeedbackItem(js[i])
  {
    if js == [] then Some([])
    else
      var head := ValidateFeedbackItem(js[0]);
      var tail := ValidateFeedbackItems(js[1..]);
      if head.Some? && tail.Some? then Some([head.value] + tail.value) else None
  }

  function FeedbackItemsToJson(its: seq<FeedbackItem>): (r: seq<Json>)
    ensures |r| == |its|
  {
    if its == [] then [] else [FeedbackItemToJson(its[0])] + FeedbackItemsToJson(its[1..])
  }

  /** `LanguageFeedback.model_validate`: both `items` and `overall_comment` are required. */
  function ValidateLanguageFeedback(j: Json): (r: Option<LanguageFeedback>)
    ensures r.Some? <==>
      j.JObj? && HasStr(j.fields, "overall_comment")
      && Get(j.fields, "items").Some? && Get(j.fields, "items").value.JArr?
      && forall i :: 0 <= i < |Get(j.fields, "items").value.items| ==>
           ValidateFeedbackItem(Get(j.fields, "items").value.items[i]).Some?
    ensures r.Some? ==> (Get(j.fields, "overall_comment") == Some(JStr(r.value.overallComment))
                      && |r.value.items| == |Get(j.fields, "items").value.items|
                      && forall i :: 0 <= i < |r.value.items| ==>
                           Some(r.value.items[i]) == ValidateFeedbackItem(Get(j.fields, "items").value.items[i]))
  {
    if !j.JObj? then None
    else
      var items := Get(j.fields, "items");
      var comment := StrField(j.fields, "overall_comment");
      if items.Some? && items.value.JArr? && comment.Some? && ValidateFeedbackItems(items.value.items).Some?
      then Some(LanguageFeedback(ValidateFeedbackItems(items.value.items).value, comment.value))
      else None
  }

  /** `LanguageFeedback.model_dump()` */
  function LanguageFeedbackToJson(lf: LanguageFeedback): Json
  {
    JObj([("items", JArr(FeedbackItemsToJson(lf.items))), ("overall_comment", JStr(lf.overallComment))])
  }

  /** `level: Literal[...] | None = 'A2'`: absent means A2, null means no level. */
  function LevelField(f: seq<(string, Json)>): (r: Option<Option<MetaLevel>>)
    ensures Get(f, "level").None? ==> r == Some(Some(A2))
    ensures Get(f, "level") == Some(JNull) ==> r == Some(None)
    ensures r.Some? <==>
      Get(f, "level").None? || Get(f, "level") == Some(JNull) || HasStrIn(f, "level", {"A1", "A2", "B1", "B2", "C1", "C2"})
    ensures r.Some? && r.value.Some? && Get(f, "level").Some? ==> Get(f, "level") == Some(JStr(MetaLevelName(r.value.value)))
  {
    match Get(f, "level")
    case None => Some(Some(A2))
    case Some(JNull) => Some(None)
    case Some(JStr(s)) => (match ParseMetaLevel(s) case Some(l) => Some(Some(l)) case None => None)
    case Some(_) => None
  }

  /** `Meta`: `level` defaults to A2 when the key is absent and may be null; `platform` is required. */
  function ValidateMeta(j: Json): (r: Option<Meta>)
    ensures r.Some? <==> j.JObj? && LevelField(j.fields).Some? && HasStrIn(j.fields, "platform", {"telegram", "web"})
    ensures r.Some? ==> (Some(r.value.level) == LevelField(j.fields)
                      && Get(j.fields, "platform") == Some(JStr(PlatformName(r.value.platform))))
  {
    if !j.JObj? then None
    else
      var level := LevelField(j.fields);
      var platform := StrField(j.fields, "platform");
      if level.Some? && platform.Some? && ParsePlatform(platform.value).Some?
      then Some(Meta(level.value, ParsePlatform(platform.value).value))
      else None
  }

  function MetaToJson(m: Meta): Json
  {
    JObj([("level", match m.level case Some(l) => JStr(MetaLevelName(l)) case None => JNull),
          ("platform", JStr(PlatformName(m.platform)))])
  }

  /** An optional `Meta | None = None` field. */
  function MetaField(f: seq<(string, Json)>): (r: Option<Option<Meta>>)
    ensures Get(f, "meta").None? || Get(f, "meta") == Some(JNull) ==> r == Some(None)
    ensures r.Some? <==> Get(f, "meta").None? || Get(f, "meta") == Some(JNull) || ValidateMeta(Get(f, "meta").value).Some?
    ensures r.Some? && r.value.Some? ==> Get(f, "meta").Some? && ValidateMeta(Get(f, "meta").value) == r.value
  {
    match Get(f, "meta")
    case None => Some(None)
    case Some(JNull) => Some(None)
    case Some(v) => (match ValidateMeta(v) case Some(m) => Some(Some(m)) case None => None)
  }

  function MetaFieldToJson(m: Option<Meta>): Json
  {
    match m
    case Some(x) => MetaToJson(x)
    case None => JNull
  }

  /** `history: list[ChatMessage] = Field(default_factory=list)` */
  function HistoryField(f: seq<(string, Json)>): (r: Option<seq<ChatMessage>>)
    ensures Get(f, "history").None? ==> r == Some([])
    ensures r.Some? <==>
      Get(f, "history").None?
      || (Get(f, "history").value.JArr?
          && forall i :: 0 <= i < |Get(f, "history").value.items| ==> ValidateChatMessage(Get(f, "history").value.items[i]).Some?)
    ensures r.Some? && Get(f, "history").Some? ==>
      |r.value| == |Get(f, "history").value.items|
      && forall i :: 0 <= i < |r.value| ==> Some(r.value[i]) == ValidateChatMessage(Get(f, "history").value.items[i])
  {
    match Get(f, "history")
    case None => Some([])
    case Some(JArr(xs)) => ValidateChatMessages(xs)
    case Some(_) => None
  }

  /**
   * `ReplyRequest`: `session_id` must be present but may be null; `history`
   * and `meta` may be left out.
   */
  function ValidateReplyRequest(j: Json): (r: Option<ReplyRequest>)
    ensures r.Some? <==>
      j.JObj? && HasStr(j.fields, "user_id") && HasNullableStr(j.fields, "session_id") && HasStr(j.fields, "message")
      && HistoryField(j.fields).Some? && MetaField(j.fields).Some?
    ensures r.Some? ==> (Get(j.fields, "user_id") == Some(JStr(r.value.userId))
                      && Get(j.fields, "session_id") == Some(NullableStrToJson(r.value.sessionId))
                      && Get(j.fields, "message") == Some(JStr(r.value.message))
                      && HistoryField(j.fields) == Some(r.value.history)
                      && MetaField(j.fields) == Some(r.value.meta))
  {
    if !j.JObj? then None
    else
      var u := StrField(j.fields, "user_id");
      var sid := NullableStrField(j.fields, "session_id");
      var msg := StrField(j.fields, "message");
      var h := HistoryField(j.fields);
      var m := MetaField(j.fields);
      if u.Some? && sid.Some? && msg.Some? && h.Some? && m.Some?
      then Some(ReplyRequest(u.value, sid.value, msg.value, h.value, m.value))
      else None
  }

  function ReplyRequestToJson(r: ReplyRequest): Json
  {
    JObj([("user_id", JStr(r.userId)),
          ("session_id", NullableStrToJson(r.sessionId)),
          ("message", JStr(r.message)),
          ("history", JArr(ChatMessagesToJson(r.history))),
          ("meta", MetaFieldToJson(r.meta))])
  }

  /** `FeedbackRequest`: like ReplyRequest but `session_id` must be a string and there is no history. */
  function ValidateFeedbackRequest(j: Json): (r: Option<FeedbackRequest>)
    ensures r.Some? <==>
      j.JObj? && HasStr(j.fields, "user_id") && HasStr(j.fields, "session_id") && HasStr(j.fields, "message")
      && MetaField(j.fields).Some?
    ensures r.Some? ==> (Get(j.fields, "user_id") == Some(JStr(r.value.userId))
                      && Get(j.fields, "session_id") == Some(JStr(r.value.sessionId))
                      && Get(j.fields, "message") == Some(JStr(r.value.message))
                      && MetaField(j.fields) == Some(r.value.meta))
  {
    if !j.JObj? then None
    else
      var u := StrField(j.fields, "user_id");
      var sid := StrField(j.fields, "session_id");
      var msg := StrField(j.fields, "message");
      var m := MetaField(j.fields);
      if u.Some? && sid.Some? && msg.Some? && m.Some?
      then Some(FeedbackRequest(u.value, sid.value, msg.value, m.value))
      else None
  }

  function FeedbackRequestToJson(r: FeedbackRequest): Json
  {
    JObj([("user_id", JStr(r.userId)),
          ("session_id", JStr(r.sessionId)),
          ("message", JStr(r.message)),
          ("meta", MetaFieldToJson(r.meta))])
  }

  // ---------------------------------------------------------------- properties

  /** Dumping a message and validating the dump gives the message back. */
  lemma ChatMessageRoundTrip(m: ChatMessage)
    ensures ValidateChatMessage(ChatMessageToJson(m)) == Some(m)
  {
    var f := ChatMessageToJson(m).fields;
    GetAt(f, 0);
    GetAt(f, 1);
    assert ParseRole(RoleName(m.role)) == Some(m.role) by {
      match m.role
      case User =>
      case Assistant =>
    }
  }

  lemma {:induction false} ChatMessagesRoundTrip(ms: seq<ChatMessage>)
    ensures ValidateChatMessages(ChatMessagesToJson(ms)) == Some(ms)
  {
    if ms != [] {
      ChatMessageRoundTrip(ms[0]);
      var js := ChatMessagesToJson(ms);
      assert js[1..] == ChatMessagesToJson(ms[1..]);
      ChatMessagesRoundTrip(ms[1..]);
      assert [ms[0]] + ms[1..] == ms;
    }
  }

  lemma FeedbackItemRoundTrip(it: FeedbackItem)
    ensures ValidateFeedbackItem(FeedbackItemToJson(it)) == Some(it)
  {
    var f := FeedbackItemToJson(it).fields;
    assert StrField(f, "user_text") == Some(it.userText) by { GetAt(f, 0); }
    assert StrField(f, "error_type") == Some(ErrorTypeName(it.errorType)) by { GetAt(f, 1); }
    assert StrField(f, "explanation") == Some(it.explanation) by { GetAt(f, 2); }
    assert NullableStrField(f, "text_corrected") == Some(it.textCorrected) by { GetAt(f, 3); }
    assert ParseErrorType(ErrorTypeName(it.errorType)) == Some(it.errorType) by {
      match it.errorType
      case Grammar =>
      case Spelling =>
      case Punctuation =>
      case Style =>
      case Vocabulary =>
    }
  }

  lemma {:induction false} FeedbackItemsRoundTrip(its: seq<FeedbackItem>)
    ensures ValidateFeedbackItems(FeedbackItemsToJson(its)) == Some(its)
  {
    if its != [] {
      FeedbackItemRoundTrip(its[0]);
      var js := FeedbackItemsToJson(its);
      assert js[1..] == FeedbackItemsToJson(its[1..]);
      FeedbackItemsRoundTrip(its[1..]);
      assert [its[0]] + its[1..] == its;
    }
  }

  /** `LanguageFeedback.model_validate(lf.model_dump()) == lf` */
  lemma LanguageFeedbackRoundTrip(lf: LanguageFeedback)
    ensures ValidateLanguageFeedback(LanguageFeedbackToJson(lf)) == Some(lf)
  {
    var f := LanguageFeedbackToJson(lf).fields;
    GetAt(f, 0);
    GetAt(f, 1);
    FeedbackItemsRoundTrip(lf.items);
  }

  lemma MetaRoundTrip(m: Meta)
    ensures ValidateMeta(MetaToJson(m)) == Some(m)
  {
    var f := MetaToJson(m).fields;
    GetAt(f, 0);
    GetAt(f, 1);
    assert ParsePlatform(PlatformName(m.platform)) == Some(m.platform) by {
      match m.platform
      case Telegram =>
      case Web =>
    }
    match m.level
    case None =>
    case Some(l) =>
      assert ParseMetaLevel(MetaLevelName(l)) == Some(l) by {
        match l
        case A1 =>
        case A2 =>
        case B1 =>
        case B2 =>
        case C1 =>
        case C2 =>
      }
  }

  lemma ReplyRequestFields(r: ReplyRequest)
    ensures ReplyRequestToJson(r).JObj?
    ensures StrField(ReplyRequestToJson(r).fields, "user_id") == Some(r.userId)
    ensures NullableStrField(ReplyRequestToJson(r).fields, "session_id") == Some(r.sessionId)
    ensures StrField(ReplyRequestToJson(r).fields, "message") == Some(r.message)
    ensures Get(ReplyRequestToJson(r).fields, "history") == Some(JArr(ChatMessagesToJson(r.history)))
    ensures Get(ReplyRequestToJson(r).fields, "meta") == Some(MetaFieldToJson(r.meta))
  {
    var f := ReplyRequestToJson(r).fields;
    assert StrField(f, "user_id") == Some(r.userId) by { GetAt(f, 0); }
    assert NullableStrField(f, "session_id") == Some(r.sessionId) by { GetAt(f, 1); }
    assert StrField(f, "message") == Some(r.message) by { GetAt(f, 2); }
    assert Get(f, "history") == Some(JArr(ChatMessagesToJson(r.history))) by { GetAt(f, 3); }
    assert Get(f, "meta") == Some(MetaFieldToJson(r.meta)) by { GetAt(f, 4); }
  }

  lemma ReplyRequestRoundTrip(r: ReplyRequest)
    ensures ValidateReplyRequest(ReplyRequestToJson(r)) == Some(r)
  {
    var f := ReplyRequestToJson(r).fields;
    ReplyRequestFields(r);
    ChatMessagesRoundTrip(r.history);
    assert HistoryField(f) == Some(r.history);
    if r.meta.Some? {
      MetaRoundTrip(r.meta.value);
    }
    assert MetaField(f) == Some(r.meta);
  }

  lemma FeedbackRequestRoundTrip(r: FeedbackRequest)
    ensures ValidateFeedbackRequest(FeedbackRequestToJson(r)) == Some(r)
  {
    var f := FeedbackRequestToJson(r).fields;
    assert StrField(f, "user_id") == Some(r.userId) by { GetAt(f, 0); }
    assert StrField(f, "session_id") == Some(r.sessionId) by { GetAt(f, 1); }
    assert StrField(f, "message") == Some(r.message) by { GetAt(f, 2); }
    assert MetaField(f) == Some(r.meta) by {
      GetAt(f, 3);
      if r.meta.Some? {
        MetaRoundTrip(r.meta.value);
      }
    }
  }

  /** The prompt's `word_order` and `other` are outside the schema's error types. */
  lemma PromptOnlyErrorTypesRejected(f: seq<(string, Json)>)
    requires Get(f, "error_type") == Some(JStr("word_order")) || Get(f, "error_type") == Some(JStr("other"))
    ensures ValidateFeedbackItem(JObj(f)).None?
  {
  }

  /** A FeedbackItem without the `text_corrected` key fails validation, even though null is accepted. */
  lemma TextCorrectedRequired(f: seq<(string, Json)>)
    requires forall i :: 0 <= i < |f| ==> f[i].0 != "text_corrected"
    ensures ValidateFeedbackItem(JObj(f)).None?
  {
  }

  /** LanguageFeedback needs both keys. */
  lemma LanguageFeedbackKeysRequired(f: seq<(string, Json)>)
    requires Get(f, "items").None? || Get(f, "overall_comment").None?
    ensures ValidateLanguageFeedback(JObj(f)).None?
  {
  }

  /** An object without a `level` key gets level A2; an explicit null keeps no level. */
  lemma MetaLevelDefault(p: Platform)
    ensures ValidateMeta(JObj([("platform", JStr(PlatformName(p)))])) == Some(Meta(Some(A2), p))
    ensures ValidateMeta(JObj([("level", JNull), ("platform", JStr(PlatformName(p)))])) == Some(Meta(None, p))
    ensures ValidateMeta(JObj([("level", JStr("C2")), ("platform", JStr(PlatformName(p)))])) == Some(Meta(Some(C2), p))
  {
    var f := [("level", JNull), ("platform", JStr(PlatformName(p)))];
    GetAt(f, 0);
    GetAt(f, 1);
    var g := [("level", JStr("C2")), ("platform", JStr(PlatformName(p)))];
    GetAt(g, 0);
    GetAt(g, 1);
    assert ParsePlatform(PlatformName(p)) == Some(p) by {
      match p
      case Telegram =>
      case Web =>
    }
  }

  /** A reply request without `history` gets the empty history. */
  lemma ReplyRequestHistoryDefault(f: seq<(string, Json)>)
    requires Get(f, "history").None?
    requires ValidateReplyRequest(JObj(f)).Some?
    ensures ValidateReplyRequest(JObj(f)).value.history == []
  {
  }

  /** A null `session_id` is accepted for replies and refused for feedback. */
  lemma SessionIdNullability(f: seq<(string, Json)>)
    requires Get(f, "session_id") == Some(JNull)
    ensures ValidateFeedbackRequest(JObj(f)).None?
    ensures ValidateReplyRequest(JObj(f)).Some? ==> ValidateReplyRequest(JObj(f)).value.sessionId.None?
  {
  }
}
