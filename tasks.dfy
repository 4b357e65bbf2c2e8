/**
 * The queue tasks the worker runs (services/worker/src/tasks.py). Each
 * task builds its prompt, calls the model, and turns both the answer and any
 * exception into a JSON-ready dict, so a task never raises.
 *
 * Loading the cached service and running the model are the parameter
 * `generate…`, which either returns text or raises (`Err`). As in the
 * service, the feedback task's `generate_feedback_raw` is modelled as the
 * generator taking the system prompt and the user message.
 */
module WorkerTasks {
  import opened Common
  import opened Json
  import opened Schemas
  import opened Prompts
  import opened WorkerUtils
  import opened WorkerService

  /** `{'error': str(e), 'traceback': tb}` */
  function ErrorResult(e: Exception): (r: Json)
    ensures r.JObj? && |r.fields| == 2
    ensures Get(r.fields, "error") == Some(JStr(e.message))
    ensures Get(r.fields, "traceback") == Some(JStr(e.traceback))
  {
    JObj([("error", JStr(e.message)), ("traceback", JStr(e.traceback))])
  }

  /**
   * `task_reply`: `{'reply': text}` with the reply prompt for the level, or
   * the error dict when the model raises.
   */
  function TaskReply(level: Option<string>, history: seq<TokenizerMessage>, message: string,
                     generateReply: (string, seq<TokenizerMessage>, string) -> Result<string, Exception>)
    : (r: Json)
    ensures r.JObj?
    ensures generateReply(GetPrompt(level, "reply").value, history, message).Ok? ==>
      r.fields == [("reply", JStr(generateReply(GetPrompt(level, "reply").value, history, message).value))]
    ensures generateReply(GetPrompt(level, "reply").value, history, message).Err? ==>
      r == ErrorResult(generateReply(GetPrompt(level, "reply").value, history, message).error)
  {
    var systemPrompt := GetPrompt(level, "reply").value;
    match generateReply(systemPrompt, history, message)
    case Ok(replyText) => JObj([("reply", JStr(replyText))])
    case Err(e) => ErrorResult(e)
  }

  /** `s.replace('\n', '\\n')` */
  function EscapeNewlines(s: string): (r: string)
    ensures |s| <= |r| <= 2 * |s|
    ensures '\n' !in r
    ensures '\n' !in s ==> r == s
  {
    if s == [] then ""
    else (if s[0] == '\n' then "\\n" else [s[0]]) + EscapeNewlines(s[1..])
  }

  /** Reading `\n` escapes back into newlines; undoes `EscapeNewlines` on text without backslashes. */
  function UnescapeNewlines(s: string): (r: string)
    ensures |r| <= |s|
  {
    if s == [] then ""
    else if |s| >= 2 && s[0] == '\\' && s[1] == 'n' then "\n" + UnescapeNewlines(s[2..])
    else [s[0]] + UnescapeNewlines(s[1..])
  }

  /** For text free of backslashes, the escaping loses nothing. */
  lemma {:induction false} EscapeNewlinesRoundTrip(s: string)
    requires '\\' !in s
    ensures UnescapeNewlines(EscapeNewlines(s)) == s
    decreases |s|
  {
    if s != [] {
      var tail := EscapeNewlines(s[1..]);
      EscapeNewlinesRoundTrip(s[1..]);
      if s[0] == '\n' {
        assert EscapeNewlines(s) == "\\n" + tail;
        assert ("\\n" + tail)[2..] == tail;
      } else {
        assert EscapeNewlines(s) == [s[0]] + tail;
        assert ([s[0]] + tail)[1..] == tail;
      }
      assert [s[0]] + s[1..] == s;
    }
  }

  const PreviewChars: nat := 300

  /** `(raw or '')[:300].replace('\n', '\\n')`: the one-line preview that is logged. */
  function RawPreview(raw: string): (r: string)
    ensures '\n' !in r
    ensures |r| <= 2 * PreviewChars
    ensures '\\' !in raw ==> UnescapeNewlines(r) == raw[..Min(|raw|, PreviewChars)]
  {
    var head := if |raw| <= PreviewChars then raw else raw[..PreviewChars];
    assert head == raw[..Min(|raw|, PreviewChars)];
    assert '\\' !in raw ==> UnescapeNewlines(EscapeNewlines(head)) == head by {
      if '\\' !in raw {
        assert '\\' !in head;
        EscapeNewlinesRoundTrip(head);
      }
    }
    EscapeNewlines(head)
  }

  /**
   * `task_feedback`: `{'language_feedback': parsed.model_dump()}` with the
   * parsed feedback or the formatting-error fallback, or the error dict when
   * the model raises.
   */
  function TaskFeedback(level: Option<string>, message: string,
                        generateFeedback: (string, string) -> Result<string, Exception>,
                        decode: string -> Result<Json, string>)
    : (r: Json)
    ensures r.JObj?
    ensures generateFeedback(GetPrompt(level, "feedback").value, message).Ok? ==>
      r.fields == [("language_feedback", LanguageFeedbackToJson(
        FeedbackOrFallback(generateFeedback(GetPrompt(level, "feedback").value, message).value, decode)))]
    ensures generateFeedback(GetPrompt(level, "feedback").value, message).Err? ==>
      r == ErrorResult(generateFeedback(GetPrompt(level, "feedback").value, message).error)
  {
    var systemPrompt := GetPrompt(level, "feedback").value;
    match generateFeedback(systemPrompt, message)
    case Ok(raw) =>
      var parsed := FeedbackOrFallback(raw, decode);
      JObj([("language_feedback", LanguageFeedbackToJson(parsed))])
    case Err(e) => ErrorResult(e)
  }

  /**
   * Whatever the model writes, a successful feedback task carries a payload
   * that validates as LanguageFeedback on the receiving side.
   */
  lemma TaskFeedbackPayloadValidates(level: Option<string>, message: string,
                                     generateFeedback: (string, string) -> Result<string, Exception>,
                                     decode: string -> Result<Json, string>)
    requires generateFeedback(GetPrompt(level, "feedback").value, message).Ok?
    ensures var r := TaskFeedback(level, message, generateFeedback, decode);
      Get(r.fields, "language_feedback").Some?
      && ValidateLanguageFeedback(Get(r.fields, "language_feedback").value).Some?
  {
    var r := TaskFeedback(level, message, generateFeedback, decode);
    GetAt(r.fields, 0);
    var raw := generateFeedback(GetPrompt(level, "feedback").value, message).value;
    LanguageFeedbackRoundTrip(FeedbackOrFallback(raw, decode));
  }

  /**
   * The reply task and the service agree: for a request whose level is
   * `level`, `task_reply` returns the service's reply on the same history.
   */
  lemma TaskReplyMatchesService(req: ReplyRequest,
                                generate: (string, seq<TokenizerMessage>, string) -> string,
                                latencyMs: int)
    ensures var hist := HistoryToDicts(ClampHistory(req.history, MaxHistoryTurns));
      TaskReply(RequestLevel(req.meta), hist, req.message, (p, h, m) => Ok(generate(p, h, m)))
        == JObj([("reply", JStr(MakeReply(req, generate, latencyMs).reply))])
  {
  }
}
