/**
 * The worker's helpers (services/worker/src/utils.py): trimming a string,
 * clamping the chat history by turns and by characters, recovering the JSON
 * object a model wrapped in prose, the parse-or-fallback chain for language
 * feedback, and the poll loop that waits for a queued job.
 *
 * `json.loads` is the parameter `decode`; the clock and the job's state are
 * the sequences of readings the loop observes.
 */
module WorkerUtils {
  import opened Common
  import opened Text
  import opened Json
  import opened Schemas

  // ---------------------------------------------------------------------
  // trim_text

  /**
   * `trim_text`: nothing for a non-positive budget; the stripped text when it
   * fits; otherwise its first `maxChars` characters, right-stripped, and "...".
   */
  function TrimText(text: string, maxChars: int): (r: string)
    ensures maxChars <= 0 ==> r == ""
    ensures maxChars > 0 ==> |r| <= maxChars + 3
    ensures maxChars > 0 && |Strip(text)| <= maxChars ==> r == Strip(text)
    ensures maxChars > 0 && |Strip(text)| > maxChars ==>
      |r| >= 3 && r[|r| - 3..] == "..." && r[..|r| - 3] <= Strip(text)[..maxChars]
      && (|r| == 3 || !IsSpace(r[|r| - 4]))
      && forall i :: |r| - 3 <= i < maxChars ==> IsSpace(Strip(text)[i])
  {
    if maxChars <= 0 then ""
    else
      var t := Strip(text);
      if |t| <= maxChars then t
      else
        var p := RStrip(t[..maxChars]);
        assert p <= t[..maxChars];
        RStripOfPrefix(t, maxChars);
        var r := p + "...";
        assert r[..|r| - 3] == p;
        r
  }

  /** Right-stripping the first `m` characters of `t` cuts only whitespace of `t`. */
  lemma RStripOfPrefix(t: string, m: nat)
    requires m <= |t|
    ensures forall i :: |RStrip(t[..m])| <= i < m ==> IsSpace(t[i])
  {
    var p := RStrip(t[..m]);
    forall i | |p| <= i < m
      ensures IsSpace(t[i])
    {
      assert t[..m][i] == t[i];
    }
  }

  /** `rstrip()` leaves a string ending in a non-space character alone. */
  lemma RStripUnchanged(s: string)
    requires s != [] && !IsSpace(s[|s| - 1])
    ensures RStrip(s) == s
  {
  }

  /**
   * Trimming twice gives the same as trimming once EXCEPT when the cut made
   * by the first trim fell on whitespace and the right-stripped remainder is
   * within three characters of the budget: the "..." then pushes the result
   * over the budget and the second trim cuts into it again ("ab cd" with a
   * budget of 3 becomes "ab...", then "ab....").
   */
  lemma TrimTextIdempotentIff(text: string, maxChars: int)
    ensures TrimText(TrimText(text, maxChars), maxChars) == TrimText(text, maxChars) <==>
      !(maxChars > 0 && |Strip(text)| > maxChars &&
        |RStrip(Strip(text)[..maxChars])| < maxChars < |RStrip(Strip(text)[..maxChars])| + 3)
  {
    if maxChars > 0 {
      var t := Strip(text);
      StripUnchanged(t);
      if |t| > maxChars {
        var p := RStrip(t[..maxChars]);
        assert TrimText(text, maxChars) == p + "...";
        TrimTruncatedAgain(t, maxChars);
      }
    }
  }

  /** Trimming a truncated text again changes it exactly when the cut text plus "..." is over the budget. */
  lemma TrimTruncatedAgain(t: string, maxChars: int)
    requires maxChars > 0 && |t| > maxChars && !IsSpace(t[0])
    ensures var p := RStrip(t[..maxChars]);
      TrimText(p + "...", maxChars) == p + "..." <==> !(|p| < maxChars < |p| + 3)
  {
    var p := RStrip(t[..maxChars]);
    assert p != [] && p[0] == t[0];
    TrimEllipsis(p, maxChars);
  }

  /** Trimming a non-empty bounded text followed by "..." again, for the text's length against the budget. */
  lemma TrimEllipsis(p: string, maxChars: int)
    requires 0 < |p| <= maxChars && !IsSpace(p[0]) && !IsSpace(p[|p| - 1])
    ensures TrimText(p + "...", maxChars) == p + "..." <==> !(|p| < maxChars < |p| + 3)
  {
    var r := p + "...";
    assert r[0] == p[0] && r[|r| - 1] == '.';
    StripUnchanged(r);
    if |r| > maxChars {
      if |p| == maxChars {
        assert r[..maxChars] == p;
        RStripUnchanged(p);
      } else {
        var q := r[..maxChars];
        assert q[|q| - 1] == '.';
        RStripUnchanged(q);
        assert |TrimText(r, maxChars)| == maxChars + 3;
      }
    }
  }

  // ---------------------------------------------------------------------
  // clamp_history

  function Min(a: int, b: int): int
  {
    if a <= b then a else b
  }

  /**
   * `clamp_history`: nothing for a non-positive budget, otherwise the last
   * `maxTurns` messages in their original order.
   */
  function ClampHistory(history: seq<ChatMessage>, maxTurns: int): (r: seq<ChatMessage>)
    ensures maxTurns <= 0 ==> r == []
    ensures maxTurns > 0 ==> |r| == Min(|history|, maxTurns)
    ensures r == history[|history| - |r|..]
    ensures maxTurns > 0 && |history| <= maxTurns ==> r == history
  {
    if maxTurns <= 0 then []
    else if |history| <= maxTurns then history
    else history[|history| - maxTurns..]
  }

  /** Clamping a clamped history changes nothing. */
  lemma ClampHistoryIdempotent(history: seq<ChatMessage>, maxTurns: int)
    ensures ClampHistory(ClampHistory(history, maxTurns), maxTurns) == ClampHistory(history, maxTurns)
  {
  }

  // ---------------------------------------------------------------------
  // clamp_history_by_chars

  /** Sum of the content lengths of the messages. */
  function TotalChars(ms: seq<ChatMessage>): nat
  {
    if ms == [] then 0 else TotalChars(ms[..|ms| - 1]) + |ms[|ms| - 1].content|
  }

  /**
   * Where the kept run of `history[..i]` starts: scanning from message
   * `i - 1` towards the oldest, each message that fits in what is left of
   * `budget` is kept, and the scan stops at the first that does not.
   */
  function KeptFrom(history: seq<ChatMessage>, i: nat, budget: int): (k: nat)
    requires i <= |history| && budget >= 0
    ensures k <= i
    decreases i
  {
    if i == 0 then 0
    else if |history[i - 1].content| > budget then i
    else KeptFrom(history, i - 1, budget - |history[i - 1].content|)
  }

  /** The kept messages fit in the budget. */
  lemma {:induction false} KeptFromFits(history: seq<ChatMessage>, i: nat, budget: int)
    requires i <= |history| && budget >= 0
    ensures TotalChars(history[KeptFrom(history, i, budget)..i]) <= budget
    decreases i
  {
    var k := KeptFrom(history, i, budget);
    if i > 0 && |history[i - 1].content| <= budget {
      KeptFromFits(history, i - 1, budget - |history[i - 1].content|);
      TotalCharsSnoc(history, k, i);
    }
  }

  /** The message just older than the kept ones would have overflowed the budget. */
  lemma {:induction false} KeptFromMaximal(history: seq<ChatMessage>, i: nat, budget: int)
    requires i <= |history| && budget >= 0
    ensures var k := KeptFrom(history, i, budget);
      k > 0 ==> TotalChars(history[k..i]) + |history[k - 1].content| > budget
    decreases i
  {
    var k := KeptFrom(history, i, budget);
    if i > 0 && |history[i - 1].content| <= budget {
      KeptFromMaximal(history, i - 1, budget - |history[i - 1].content|);
      TotalCharsSnoc(history, k, i);
    }
  }

  /** Messages whose contents fit in the budget are all kept. */
  lemma {:induction false} KeptFromAll(history: seq<ChatMessage>, i: nat, budget: int)
    requires i <= |history| && budget >= 0 && TotalChars(history[..i]) <= budget
    ensures KeptFrom(history, i, budget) == 0
    decreases i
  {
    if i > 0 {
      TotalCharsSnoc(history, 0, i);
      assert history[0..i] == history[..i] && history[0..i - 1] == history[..i - 1];
      KeptFromAll(history, i - 1, budget - |history[i - 1].content|);
    }
  }

  /** The total of a run is the total of all but its last message plus that message. */
  lemma TotalCharsSnoc(history: seq<ChatMessage>, k: nat, i: nat)
    requires k < i <= |history|
    ensures TotalChars(history[k..i]) == TotalChars(history[k..i - 1]) + |history[i - 1].content|
  {
    var run := history[k..i];
    assert run[..|run| - 1] == history[k..i - 1];
    assert run[|run| - 1] == history[i - 1];
  }

  /**
   * What `clamp_history_by_chars` keeps: a contiguous suffix of the history,
   * in order, whose contents total at most `maxTotalChars`, ending where the
   * next older message would have overflowed the budget.
   */
  function KeptByChars(history: seq<ChatMessage>, maxTotalChars: int): (r: seq<ChatMessage>)
    ensures maxTotalChars <= 0 ==> r == []
    ensures |r| <= |history| && r == history[|history| - |r|..]
    ensures TotalChars(r) <= if maxTotalChars < 0 then 0 else maxTotalChars
    ensures 0 < maxTotalChars && |r| < |history| ==>
      TotalChars(r) + |history[|history| - |r| - 1].content| > maxTotalChars
  {
    if maxTotalChars <= 0 then []
    else
      KeptFromFits(history, |history|, maxTotalChars);
      KeptFromMaximal(history, |history|, maxTotalChars);
      var k := KeptFrom(history, |history|, maxTotalChars);
      assert history[k..|history|] == history[k..];
      history[k..]
  }

  /** Clamping by characters twice is clamping once. */
  lemma KeptByCharsIdempotent(history: seq<ChatMessage>, maxTotalChars: int)
    ensures KeptByChars(KeptByChars(history, maxTotalChars), maxTotalChars)
      == KeptByChars(history, maxTotalChars)
  {
    if maxTotalChars > 0 {
      var kept := KeptByChars(history, maxTotalChars);
      assert kept[..|kept|] == kept;
      KeptFromAll(kept, |kept|, maxTotalChars);
      assert kept[0..] == kept;
    }
  }

  /** A newest message longer than the whole budget leaves nothing. */
  lemma OverlongNewestKeepsNothing(history: seq<ChatMessage>, maxTotalChars: int)
    requires history != [] && |history[|history| - 1].content| > maxTotalChars
    ensures KeptByChars(history, maxTotalChars) == []
  {
  }

  /**
   * `clamp_history_by_chars`: walks the history from the newest message,
   * collecting messages until the next one would overflow the budget, then
   * reverses what it collected.
   */
  method ClampHistoryByChars(history: seq<ChatMessage>, maxTotalChars: int)
    returns (kept: seq<ChatMessage>)
    ensures kept == KeptByChars(history, maxTotalChars)
  {
    if maxTotalChars <= 0 {
      return [];
    }
    ghost var start := KeptFrom(history, |history|, maxTotalChars);
    var total := 0;
    var collected: seq<ChatMessage> := [];
    var i := |history|;
    assert history[i..] == [];
    while i > 0
      invariant 0 <= i <= |history|
      invariant total == TotalChars(history[i..]) && total <= maxTotalChars
      invariant collected == Reverse(history[i..])
      invariant KeptFrom(history, i, maxTotalChars - total) == start
      decreases i
    {
      var msg := history[i - 1];
      var ln := |msg.content|;
      if total + ln > maxTotalChars {
        break;
      }
      ClampStep(history, i);
      collected := collected + [msg];
      total := total + ln;
      i := i - 1;
    }
    ReverseReverse(history[i..]);
    kept := Reverse(collected);
  }

  /** One step of the scan: taking message `i - 1` adds it to the total and to the collected run. */
  lemma ClampStep(history: seq<ChatMessage>, i: nat)
    requires 0 < i <= |history|
    ensures TotalChars(history[i - 1..]) == |history[i - 1].content| + TotalChars(history[i..])
    ensures Reverse(history[i - 1..]) == Reverse(history[i..]) + [history[i - 1]]
  {
    var msg := history[i - 1];
    assert history[i - 1..] == [msg] + history[i..];
    TotalCharsCons(msg, history[i..]);
    var a := Reverse(history[i - 1..]);
    var b := Reverse(history[i..]) + [msg];
    assert |a| == |b|;
    assert forall j :: 0 <= j < |a| ==> a[j] == b[j];
  }

  lemma {:induction false} TotalCharsCons(m: ChatMessage, ms: seq<ChatMessage>)
    ensures TotalChars([m] + ms) == |m.content| + TotalChars(ms)
    decreases |ms|
  {
    if ms != [] {
      assert ([m] + ms)[..|ms|] == [m] + ms[..|ms| - 1];
      TotalCharsCons(m, ms[..|ms| - 1]);
    } else {
      assert [m] + ms == [m];
      assert [m][..0] == [];
    }
  }

  // ---------------------------------------------------------------------
  // extract_json_object

  const EmptyTextError: string := "Empty text"
  const NoBoundariesError: string := "No JSON object boundaries found"
  const DecodeFailedPrefix: string := "JSON decode failed: "

  /**
   * `extract_json_object`: decodes the stripped slice from the first "{" to
   * the last "}" inclusive. `decode` is `json.loads`, giving the decoded value
   * or the decoder's error message.
   */
  function ExtractJsonObject(text: string, decode: string -> Result<Json, string>): (r: Result<Json, string>)
    ensures text == "" ==> r == Err(EmptyTextError)
    ensures text != "" && ('{' !in text || '}' !in text || RFind(text, '}') <= Find(text, '{'))
      ==> r == Err(NoBoundariesError)
    ensures r.Ok? ==> '{' in text && '}' in text && Find(text, '{') < RFind(text, '}')
  {
    if text == "" then Err(EmptyTextError)
    else
      var start := Find(text, '{');
      var end := RFind(text, '}');
      if start == -1 || end == -1 || end <= start then Err(NoBoundariesError)
      else
        var candidate := Strip(text[start..end + 1]);
        match decode(candidate)
        case Ok(j) => Ok(j)
        case Err(e) => Err(DecodeFailedPrefix + e)
  }

  /**
   * Text around the object is ignored: with no "{" before it and no "}"
   * after it, exactly the object's own text is handed to the decoder (the
   * slice starts with "{" and ends with "}", so stripping it changes nothing).
   */
  lemma ExtractDecodesObjectText(prose: string, obj: string, tail: string,
                                 decode: string -> Result<Json, string>)
    requires |obj| >= 2 && obj[0] == '{' && obj[|obj| - 1] == '}'
    requires '{' !in prose && '}' !in tail
    ensures ExtractJsonObject(prose + obj + tail, decode) ==
      match decode(obj)
      case Ok(j) => Ok(j)
      case Err(e) => Err(DecodeFailedPrefix + e)
  {
    var text := prose + obj + tail;
    var s := |prose|;
    var e := |prose| + |obj| - 1;
    assert text[s] == '{' && text[e] == '}';
    assert forall i :: 0 <= i < s ==> text[i] == prose[i];
    assert forall i :: e < i < |text| ==> text[i] == tail[i - e - 1];
    FindIs(text, '{', s);
    RFindIs(text, '}', e);
    assert text[s..e + 1] == obj;
    StripUnchanged(obj);
  }

  lemma FindIs(s: string, c: char, k: nat)
    requires k < |s| && s[k] == c && forall i :: 0 <= i < k ==> s[i] != c
    ensures Find(s, c) == k
  {
  }

  lemma RFindIs(s: string, c: char, k: nat)
    requires k < |s| && s[k] == c && forall i :: k < i < |s| ==> s[i] != c
    ensures RFind(s, c) == k
  {
  }

  // ---------------------------------------------------------------------
  // safe_parse_language_feedback and fallback_language_feedback

  /** `obj.get('language_feedback')`, where a JSON null reads as absent. */
  function FeedbackPayload(obj: Json): (r: Option<Json>)
    ensures r.Some? ==> r.value != JNull
  {
    if obj.JObj? then
      match Get(obj.fields, "language_feedback")
      case Some(v) => if v == JNull then None else Some(v)
      case None => None
    else None
  }

  /**
   * `safe_parse_language_feedback`: the validated feedback, or None when
   * extraction or decoding fails, the key is missing or null, or validation
   * fails. Every failure is a None; nothing escapes.
   */
  function SafeParseLanguageFeedback(text: string, decode: string -> Result<Json, string>)
    : (r: Option<LanguageFeedback>)
    ensures r.Some? <==>
      ExtractJsonObject(text, decode).Ok?
      && FeedbackPayload(ExtractJsonObject(text, decode).value).Some?
      && ValidateLanguageFeedback(FeedbackPayload(ExtractJsonObject(text, decode).value).value).Some?
    ensures text == "" || '{' !in text || '}' !in text ==> r.None?
  {
    match ExtractJsonObject(text, decode)
    case Err(_) => None
    case Ok(obj) =>
      match FeedbackPayload(obj)
      case None => None
      case Some(lf) => ValidateLanguageFeedback(lf)
  }

  /**
   * A model answer that wraps `{"language_feedback": ...}` in prose is parsed
   * back to the feedback it carries, whatever other keys the object has.
   */
  lemma SafeParseRecoversWrappedFeedback(prose: string, obj: string, tail: string,
                                         fields: seq<(string, Json)>, lf: LanguageFeedback,
                                         decode: string -> Result<Json, string>)
    requires |obj| >= 2 && obj[0] == '{' && obj[|obj| - 1] == '}'
    requires '{' !in prose && '}' !in tail
    requires decode(obj) == Ok(JObj(fields + [("language_feedback", LanguageFeedbackToJson(lf))]))
    ensures SafeParseLanguageFeedback(prose + obj + tail, decode) == Some(lf)
  {
    ExtractDecodesObjectText(prose, obj, tail, decode);
    var lfj := LanguageFeedbackToJson(lf);
    var f := fields + [("language_feedback", lfj)];
    assert ExtractJsonObject(prose + obj + tail, decode) == Ok(JObj(f));
    GetAt(f, |f| - 1);
    assert lfj.JObj?;
    assert FeedbackPayload(JObj(f)) == Some(lfj);
    LanguageFeedbackRoundTrip(lf);
  }

  /** A decoded object without the key gives None. */
  lemma SafeParseMissingKey(text: string, decode: string -> Result<Json, string>, fields: seq<(string, Json)>)
    requires ExtractJsonObject(text, decode) == Ok(JObj(fields))
    requires forall i :: 0 <= i < |fields| ==> fields[i].0 != "language_feedback"
    ensures SafeParseLanguageFeedback(text, decode) == None
  {
  }

  const DefaultFallbackReason: string := "Feedback temporarily unavailable."

  /** `fallback_language_feedback(reason)`: no items, the reason as the comment. */
  function FallbackLanguageFeedback(reason: string): (r: LanguageFeedback)
    ensures r.items == [] && r.overallComment == reason
  {
    LanguageFeedback([], reason)
  }

  /** The fallback is itself valid feedback: it survives a serialise/validate round trip. */
  lemma FallbackIsValid(reason: string)
    ensures ValidateLanguageFeedback(LanguageFeedbackToJson(FallbackLanguageFeedback(reason)))
      == Some(FallbackLanguageFeedback(reason))
  {
    LanguageFeedbackRoundTrip(FallbackLanguageFeedback(reason));
  }

  // ---------------------------------------------------------------------
  // wait_job_result

  /** The states an RQ job reports through `get_status()`. */
  datatype JobStatus = Queued | Started | Deferred | Scheduled | Stopped | Canceled | Finished | Failed

  /** What one `job.refresh()` makes visible. */
  datatype JobSnapshot<R> = JobSnapshot(status: JobStatus, result: R, excInfo: Option<string>)

  /** The three ways `wait_job_result` ends: a value, a `RuntimeError`, a `TimeoutError`. */
  datatype WaitOutcome<R> = Resolved(value: R) | JobFailed(message: string) | JobTimeout

  const MaxFailureText: nat := 2000

  /** `(job.exc_info or 'job failed')[-2000:]` */
  function FailureText(excInfo: Option<string>): (r: string)
    ensures |r| <= MaxFailureText
    ensures excInfo.None? || excInfo.value == "" ==> r == "job failed"
    ensures excInfo.Some? && excInfo.value != "" ==>
      |r| == Min(|excInfo.value|, MaxFailureText)
      && r == excInfo.value[|excInfo.value| - |r|..]
  {
    var s := if excInfo.None? || excInfo.value == "" then "job failed" else excInfo.value;
    if |s| <= MaxFailureText then s else s[|s| - MaxFailureText..]
  }

  /**
   * The outcome once `k` refreshes have been made: `clock[k + 1]` is the
   * reading the loop condition takes before refresh number `k`, and
   * `polls[k]` is what that refresh shows.
   */
  function WaitFrom<R>(clock: seq<int>, polls: seq<JobSnapshot<R>>, deadline: int, k: nat)
    : (r: WaitOutcome<R>)
    requires k + 1 < |clock| && clock[|clock| - 1] >= deadline && |polls| + 2 >= |clock|
    decreases |clock| - k
  {
    if clock[k + 1] >= deadline then JobTimeout
    else if polls[k].status == Finished then Resolved(polls[k].result)
    else if polls[k].status == Failed then JobFailed(FailureText(polls[k].excInfo))
    else WaitFrom(clock, polls, deadline, k + 1)
  }

  /**
   * The outcome of `wait_job_result`: `clock[0]` fixes the deadline, the
   * job's first terminal status before the deadline decides the outcome,
   * and reaching the deadline first is a timeout.
   */
  function WaitOutcomeOf<R>(clock: seq<int>, polls: seq<JobSnapshot<R>>, timeout: int): WaitOutcome<R>
    requires 2 <= |clock| && clock[|clock| - 1] >= clock[0] + timeout && |polls| + 2 >= |clock|
  {
    WaitFrom(clock, polls, clock[0] + timeout, 0)
  }

  predicate Terminal(s: JobStatus)
  {
    s == Finished || s == Failed
  }

  /**
   * If the first `n` refreshes are all seen before the deadline and are not
   * terminal, and refresh `n` is also before it and is terminal, that
   * refresh decides the outcome.
   */
  lemma {:induction false} FirstTerminalDecides<R>(clock: seq<int>, polls: seq<JobSnapshot<R>>,
                                                  deadline: int, k: nat, n: nat)
    requires k <= n && n + 1 < |clock| && clock[|clock| - 1] >= deadline && |polls| + 2 >= |clock|
    requires forall i :: k + 1 <= i <= n + 1 ==> clock[i] < deadline
    requires forall i :: k <= i < n ==> !Terminal(polls[i].status)
    requires Terminal(polls[n].status)
    ensures WaitFrom(clock, polls, deadline, k) ==
      if polls[n].status == Finished then Resolved(polls[n].result)
      else JobFailed(FailureText(polls[n].excInfo))
    decreases n - k
  {
    if k < n {
      FirstTerminalDecides(clock, polls, deadline, k + 1, n);
    }
  }

  /** With a non-positive timeout on a clock that does not go back, nothing is polled. */
  lemma NoPollWithoutTime<R>(clock: seq<int>, polls: seq<JobSnapshot<R>>, timeout: int)
    requires 2 <= |clock| && clock[|clock| - 1] >= clock[0] + timeout && |polls| + 2 >= |clock|
    requires timeout <= 0 && clock[0] <= clock[1]
    ensures WaitOutcomeOf(clock, polls, timeout) == JobTimeout
  {
  }

  /**
   * `wait_job_result`: refreshes the job until it finishes, fails, or the
   * clock reaches `clock[0] + timeout`. Also returns how many refreshes it
   * made; a timeout comes after the clock reading that reached the deadline.
   */
  method WaitJobResult<R>(clock: seq<int>, polls: seq<JobSnapshot<R>>, timeout: int)
    returns (outcome: WaitOutcome<R>, refreshes: nat)
    requires 2 <= |clock| && clock[|clock| - 1] >= clock[0] + timeout && |polls| + 2 >= |clock|
    ensures outcome == WaitOutcomeOf(clock, polls, timeout)
    ensures refreshes + 1 < |clock|
    ensures forall i :: 1 <= i <= refreshes ==> clock[i] < clock[0] + timeout
    ensures forall i :: 0 <= i < refreshes - 1 ==> !Terminal(polls[i].status)
    ensures outcome.JobTimeout? ==> clock[refreshes + 1] >= clock[0] + timeout
    ensures !outcome.JobTimeout? ==> refreshes >= 1 && Terminal(polls[refreshes - 1].status)
  {
    var deadline := clock[0] + timeout;
    var k: nat := 0;
    while clock[k + 1] < deadline
      invariant k + 1 < |clock|
      invariant forall i :: 1 <= i <= k ==> clock[i] < deadline
      invariant forall i :: 0 <= i < k ==> !Terminal(polls[i].status)
      invariant WaitFrom(clock, polls, deadline, k) == WaitOutcomeOf(clock, polls, timeout)
      decreases |clock| - k
    {
      var snap := polls[k];
      if snap.status == Finished {
        return Resolved(snap.result), k + 1;
      }
      if snap.status == Failed {
        return JobFailed(FailureText(snap.excInfo)), k + 1;
      }
      k := k + 1;
    }
    return JobTimeout, k;
  }
}
