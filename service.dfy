/**
 * The worker's request service (services/worker/src/service.py): builds the
 * system prompt, clamps the history, calls the text generator and shapes
 * the response with its meta block.
 *
 * The language model is the parameter `generate…`, the elapsed time of the
 * wall-clock timer is the parameter `latencyMs`, and `json.loads` is
 * `decode`. The generator is called on exactly the arguments modelled here.
 *
 * Two calls in the source name members that do not exist: `make_reply`
 * reads `req.hystory` where the request's field is `history`, and
 * `make_feedback` calls `generate_feedback_raw`, which the model class does
 * not define. The model follows the evident intent: the request's history,
 * and a feedback generator taking the system prompt and the user message.
 */
module WorkerService {
  import opened Common
  import opened Schemas
  import opened Prompts
  import opened WorkerUtils

  /** `MAX_HISTORY_TURNS` of the worker's settings. */
  const MaxHistoryTurns: int := 16

  /** The tokenizer's message shape: `{"role": ..., "content": ...}`. */
  type TokenizerMessage = map<string, string>

  /** The `meta` dict of both responses. */
  datatype ResponseMeta = ResponseMeta(latencyMs: int, mode: string, level: string)

  datatype ReplyResponse = ReplyResponse(reply: string, meta: ResponseMeta)

  datatype FeedbackResponse = FeedbackResponse(languageFeedback: LanguageFeedback, meta: ResponseMeta)

  /** The comment of the feedback returned when the model's output cannot be parsed. */
  const FormattingErrorReason: string := "Feedback temporarily unavailable (formatting error)."

  /** `_history_to_dicts`: one `{role, content}` dict per message, in order. */
  function HistoryToDicts(history: seq<ChatMessage>): (r: seq<TokenizerMessage>)
    ensures |r| == |history|
    ensures forall i :: 0 <= i < |r| ==> r[i].Keys == {"role", "content"}
  {
    seq(|history|, i requires 0 <= i < |history| =>
      map["role" := RoleName(history[i].role), "content" := history[i].content])
  }

  /** Reading the dicts back as chat messages. */
  function DictsToHistory(ds: seq<TokenizerMessage>): (r: Option<seq<ChatMessage>>)
    ensures r.Some? ==> |r.value| == |ds|
    decreases |ds|
  {
    if ds == [] then Some([])
    else if "role" !in ds[0] || "content" !in ds[0] then None
    else
      match ParseRole(ds[0]["role"])
      case None => None
      case Some(role) =>
        match DictsToHistory(ds[1..])
        case None => None
        case Some(rest) => Some([ChatMessage(role, ds[0]["content"])] + rest)
  }

  /** No message is lost, reordered or altered on its way to the tokenizer. */
  lemma {:induction false} HistoryToDictsRoundTrip(history: seq<ChatMessage>)
    ensures DictsToHistory(HistoryToDicts(history)) == Some(history)
    decreases |history|
  {
    if history != [] {
      var ds := HistoryToDicts(history);
      assert ds[1..] == HistoryToDicts(history[1..]);
      HistoryToDictsRoundTrip(history[1..]);
      assert ParseRole(RoleName(history[0].role)) == Some(history[0].role);
      assert [history[0]] + history[1..] == history;
    }
  }

  /** `req.meta.level if req.meta else None`, as the string the prompt lookup receives. */
  function RequestLevel(meta: Option<Meta>): (r: Option<string>)
    ensures r.Some? <==> meta.Some? && meta.value.level.Some?
    ensures r.Some? ==> ParseMetaLevel(r.value) == meta.value.level
  {
    if meta.Some? && meta.value.level.Some? then Some(MetaLevelName(meta.value.level.value)) else None
  }

  /** `level or "auto"` */
  function LevelOrAuto(level: Option<string>): string
  {
    if level.Some? && level.value != "" then level.value else "auto"
  }

  /**
   * `make_reply`: the generator receives the reply prompt for the request's
   * level, the last `MaxHistoryTurns` messages of the history as dicts, and
   * the user's message.
   */
  function MakeReply(req: ReplyRequest,
                     generateReply: (string, seq<TokenizerMessage>, string) -> string,
                     latencyMs: int): (r: ReplyResponse)
    ensures r.reply == generateReply(GetPrompt(RequestLevel(req.meta), "reply").value,
                                     HistoryToDicts(ClampHistory(req.history, MaxHistoryTurns)),
                                     req.message)
    ensures r.meta.mode == "reply" && r.meta.latencyMs == latencyMs
    ensures r.meta.level == "auto" <==> RequestLevel(req.meta).None?
    ensures RequestLevel(req.meta).Some? ==> ParseMetaLevel(r.meta.level) == req.meta.value.level
  {
    var level := RequestLevel(req.meta);
    var systemPrompt := GetPrompt(level, "reply").value;
    var hist := ClampHistory(req.history, MaxHistoryTurns);
    var replyText := generateReply(systemPrompt, HistoryToDicts(hist), req.message);
    ReplyResponse(replyText, ResponseMeta(latencyMs, "reply", LevelOrAuto(level)))
  }

  /** Taking the last turns of a longer history is the same as taking them of its tail. */
  lemma ClampHistoryOfOlder(older: seq<ChatMessage>, history: seq<ChatMessage>, maxTurns: int)
    requires |history| >= maxTurns
    ensures ClampHistory(older + history, maxTurns) == ClampHistory(history, maxTurns)
  {
    if maxTurns > 0 {
      assert (older + history)[|older + history| - maxTurns..] == history[|history| - maxTurns..];
    }
  }

  /**
   * Messages older than the last `MaxHistoryTurns` never reach the model:
   * prepending them to a history that already has that many turns changes
   * nothing in the reply.
   */
  lemma MakeReplyIgnoresOlderTurns(req: ReplyRequest, older: seq<ChatMessage>,
                                   generateReply: (string, seq<TokenizerMessage>, string) -> string,
                                   latencyMs: int)
    requires |req.history| >= MaxHistoryTurns
    ensures MakeReply(req.(history := older + req.history), generateReply, latencyMs)
         == MakeReply(req, generateReply, latencyMs)
  {
    ClampHistoryOfOlder(older, req.history, MaxHistoryTurns);
  }

  /** The feedback `make_feedback` returns: the parsed one, else the formatting-error fallback. */
  function FeedbackOrFallback(raw: string, decode: string -> Result<Json.Json, string>): (r: LanguageFeedback)
    ensures SafeParseLanguageFeedback(raw, decode).Some? ==> r == SafeParseLanguageFeedback(raw, decode).value
    ensures SafeParseLanguageFeedback(raw, decode).None? ==> r.items == [] && r.overallComment == FormattingErrorReason
  {
    match SafeParseLanguageFeedback(raw, decode)
    case Some(lf) => lf
    case None => FallbackLanguageFeedback(FormattingErrorReason)
  }

  /**
   * `make_feedback`: whatever the model writes, the response carries a
   * LanguageFeedback; the generator receives the feedback prompt for the
   * request's level and the user's message.
   */
  function MakeFeedback(req: FeedbackRequest,
                        generateFeedback: (string, string) -> string,
                        decode: string -> Result<Json.Json, string>,
                        latencyMs: int): (r: FeedbackResponse)
    ensures r.languageFeedback ==
      FeedbackOrFallback(generateFeedback(GetPrompt(RequestLevel(req.meta), "feedback").value, req.message), decode)
    ensures r.meta.mode == "feedback" && r.meta.latencyMs == latencyMs
    ensures r.meta.level == "auto" <==> RequestLevel(req.meta).None?
    ensures RequestLevel(req.meta).Some? ==> ParseMetaLevel(r.meta.level) == req.meta.value.level
  {
    var level := RequestLevel(req.meta);
    var systemPrompt := GetPrompt(level, "feedback").value;
    var raw := generateFeedback(systemPrompt, req.message);
    FeedbackResponse(FeedbackOrFallback(raw, decode), ResponseMeta(latencyMs, "feedback", LevelOrAuto(level)))
  }

  /**
   * The feedback in every response is well formed: serialising it and
   * validating it again gives it back, whether it was parsed or is the fallback.
   */
  lemma MakeFeedbackIsValid(req: FeedbackRequest,
                            generateFeedback: (string, string) -> string,
                            decode: string -> Result<Json.Json, string>,
                            latencyMs: int)
    ensures var lf := MakeFeedback(req, generateFeedback, decode, latencyMs).languageFeedback;
      ValidateLanguageFeedback(LanguageFeedbackToJson(lf)) == Some(lf)
  {
    LanguageFeedbackRoundTrip(MakeFeedback(req, generateFeedback, decode, latencyMs).languageFeedback);
  }

  /** A model answer with no JSON object in it gives the formatting-error fallback. */
  lemma MakeFeedbackFallsBack(req: FeedbackRequest,
                              generateFeedback: (string, string) -> string,
                              decode: string -> Result<Json.Json, string>,
                              latencyMs: int)
    requires '{' !in generateFeedback(GetPrompt(RequestLevel(req.meta), "feedback").value, req.message)
    ensures MakeFeedback(req, generateFeedback, decode, latencyMs).languageFeedback
      == LanguageFeedback([], FormattingErrorReason)
  {
  }
}
