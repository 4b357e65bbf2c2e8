/**
 * The demo analyzer and statistics service (services/web/ai_worker_stub/app.py).
 * `analyze` echoes the text with no corrections; `stats` derives every
 * number from one integer seed, so a user's page is the same on each visit.
 *
 * The seed is `int(sha256(f"{username}:{period}").hexdigest()[:8], 16)`:
 * the hash is the parameter `seedOf`, applied to that key. Dates are day
 * numbers, `today` is a parameter, and `isoformat` is not modelled.
 */
module StatsStub {
  import opened Common
  import opened Json
  import opened Backend

  // ---------------------------------------------------------------- analyze

  /** The three keys of `analyze`'s answer, as the backends receive them. */
  function AnalyzeFields(tgUsername: string, text: string, level: string): (r: seq<(string, Json)>)
    ensures Get(r, "corrected_text") == Some(JStr(text))
    ensures Get(r, "explanation") == Some(JStr("Stub AI: level=" + level + ", user=@" + tgUsername))
    ensures Get(r, "errors") == Some(JArr([]))
  {
    var r := [("corrected_text", JStr(text)),
              ("explanation", JStr("Stub AI: level=" + level + ", user=@" + tgUsername)),
              ("errors", JArr([]))];
    GetAt(r, 0);
    GetAt(r, 1);
    GetAt(r, 2);
    r
  }

  /**
   * Checked through the stub, a text comes back unchanged with no errors:
   * the backends' response shaping reads the stub's answer as exactly that.
   */
  lemma StubCheckEchoesText(tgUsername: string, text: string, level: string, submitted: string)
    ensures var data := AnalyzeFields(tgUsername, text, level);
      ErrorsField(data) == Ok([])
      && WellFormedItems(ErrorsField(data).value) == []
      && StrOr(data, "corrected_text", submitted) == Ok(text)
      && StrOr(data, "explanation", "") == Ok("Stub AI: level=" + level + ", user=@" + tgUsername)
  {
  }

  // ---------------------------------------------------------------- stats

  datatype Period = Day | Week | All

  function PeriodName(p: Period): string
  {
    match p
    case Day => "day"
    case Week => "week"
    case All => "all"
  }

  /** `Literal["day", "week", "all"]` */
  function ParsePeriod(s: string): (r: Option<Period>)
    ensures r.Some? <==> s == "day" || s == "week" || s == "all"
    ensures r.Some? ==> PeriodName(r.value) == s
  {
    if s == "day" then Some(Day)
    else if s == "week" then Some(Week)
    else if s == "all" then Some(All)
    else None
  }

  lemma PeriodRoundTrip(p: Period)
    ensures ParsePeriod(PeriodName(p)) == Some(p)
  {
  }

  /** `days`: one for a day, seven for a week, thirty for "all". */
  function Days(p: Period): (r: nat)
    ensures 1 <= r <= 30
  {
    if p == Day then 1 else if p == Week then 7 else 30
  }

  datatype TimePoint = TimePoint(date: int, errors: int, messages: int)

  datatype ErrorsByTypePoint = ErrorsByTypePoint(kind: string, count: int)

  datatype AchievementItem = AchievementItem(code: string, title: string, earnedAt: int)

  /** `StatsOut` without `errors_per_message`. */
  datatype StatsOut = StatsOut(
    period: Period,
    messagesCount: int,
    errorsCount: int,
    timeseries: seq<TimePoint>,
    errorsByType: seq<ErrorsByTypePoint>,
    achievements: seq<AchievementItem>)

  /** The `i`-th of `days` points: its date counts up to `today`, its numbers come from the seed. */
  function Point(seed: nat, days: nat, today: int, i: int): (r: TimePoint)
    ensures r.date == today - (days - 1 - i)
    ensures 0 <= r.messages <= 6 && 0 <= r.errors <= 10
  {
    TimePoint(today - (days - 1 - i), (seed + i * 17) % 11, (seed + i * 13) % 7)
  }

  function SumMessages(ts: seq<TimePoint>): int
  {
    if ts == [] then 0 else SumMessages(ts[..|ts| - 1]) + ts[|ts| - 1].messages
  }

  function SumErrors(ts: seq<TimePoint>): int
  {
    if ts == [] then 0 else SumErrors(ts[..|ts| - 1]) + ts[|ts| - 1].errors
  }

  /** The timeseries loop: one point per day, oldest first, with running totals. */
  method Timeseries(seed: nat, days: nat, today: int) returns (ts: seq<TimePoint>, totalMsgs: int, totalErr: int)
    ensures |ts| == days
    ensures forall i :: 0 <= i < days ==> ts[i] == Point(seed, days, today, i)
    ensures totalMsgs == SumMessages(ts) && totalErr == SumErrors(ts)
  {
    ts := [];
    totalMsgs := 0;
    totalErr := 0;
    var i := 0;
    while i < days
      invariant 0 <= i <= days && |ts| == i
      invariant forall k :: 0 <= k < i ==> ts[k] == Point(seed, days, today, k)
      invariant totalMsgs == SumMessages(ts) && totalErr == SumErrors(ts)
    {
      var d := today - (days - 1 - i);
      var msgs := (seed + i * 13) % 7;
      var errs := (seed + i * 17) % 11;
      var point := TimePoint(d, errs, msgs);
      assert (ts + [point])[..i] == ts;
      ts := ts + [point];
      totalMsgs := totalMsgs + msgs;
      totalErr := totalErr + errs;
      i := i + 1;
    }
  }

  /** A timeseries from the seed covers consecutive days and ends today. */
  lemma TimeseriesDays(seed: nat, days: nat, today: int, ts: seq<TimePoint>)
    requires |ts| == days && forall i :: 0 <= i < days ==> ts[i] == Point(seed, days, today, i)
    ensures days > 0 ==> ts[days - 1].date == today
    ensures forall i :: 0 <= i < days - 1 ==> ts[i + 1].date == ts[i].date + 1
  {
  }

  /** The totals of points in range are bounded by the per-day maxima. */
  lemma {:induction false} SumsBounded(ts: seq<TimePoint>)
    requires forall i :: 0 <= i < |ts| ==> 0 <= ts[i].messages <= 6 && 0 <= ts[i].errors <= 10
    ensures 0 <= SumMessages(ts) <= 6 * |ts|
    ensures 0 <= SumErrors(ts) <= 10 * |ts|
    decreases |ts|
  {
    if ts != [] {
      SumsBounded(ts[..|ts| - 1]);
    }
  }

  /** `types`, in the order the bar chart lists them. */
  const ErrorTypes: seq<string> := ["grammar", "spelling", "vocabulary", "punctuation", "word_order"]

  /** The count of the `j`-th type; Python's `//` is Dafny's `/` on the seed, which is never negative. */
  function TypeCount(seed: nat, j: nat): (r: int)
    ensures 0 <= r <= 11
  {
    (seed / (j + 1) + j * 5) % 12
  }

  /** The errors-by-type loop: the five types in order, each with its count. */
  method ErrorsByType(seed: nat) returns (ebt: seq<ErrorsByTypePoint>)
    ensures |ebt| == |ErrorTypes|
    ensures forall j :: 0 <= j < |ErrorTypes| ==> ebt[j] == ErrorsByTypePoint(ErrorTypes[j], TypeCount(seed, j))
  {
    ebt := [];
    var j := 0;
    while j < |ErrorTypes|
      invariant 0 <= j <= |ErrorTypes| && |ebt| == j
      invariant forall k :: 0 <= k < j ==> ebt[k] == ErrorsByTypePoint(ErrorTypes[k], TypeCount(seed, k))
    {
      var c := (seed / (j + 1) + j * 5) % 12;
      ebt := ebt + [ErrorsByTypePoint(ErrorTypes[j], c)];
      j := j + 1;
    }
  }

  /** `ach_pool`: (code, title) pairs. */
  const AchievementPool: seq<(string, string)> := [
    ("FIRST_MESSAGE", "First message"),
    ("STREAK_3", "3-day streak"),
    ("STREAK_7", "7-day streak"),
    ("NO_ERRORS_5", "5 messages without errors"),
    ("100_MESSAGES_SENT", "100 messages sent")]

  /** The `k`-th pool entry is shown when `seed + 7k` is even. */
  predicate Picked(seed: nat, k: nat)
  {
    (seed + k * 7) % 2 == 0
  }

  /** `max(days, 1)` */
  function Window(days: nat): (r: nat)
    ensures r >= 1 && r >= days
  {
    if days > 1 then days else 1
  }

  /** The pool entries among the first `n` that are picked, in pool order, each with its earning day. */
  function PickAchievements(seed: nat, days: nat, today: int, n: nat): (r: seq<AchievementItem>)
    requires n <= |AchievementPool|
    ensures |r| <= n
    ensures forall a :: a in r ==> today - (Window(days) - 1) <= a.earnedAt <= today
  {
    if n == 0 then []
    else
      var k := n - 1;
      PickAchievements(seed, days, today, k)
        + (if Picked(seed, k)
           then [AchievementItem(AchievementPool[k].0, AchievementPool[k].1, today - (seed + k) % Window(days))]
           else [])
  }

  /** The achievements loop over the pool. */
  method Achievements(seed: nat, days: nat, today: int) returns (achievements: seq<AchievementItem>)
    ensures achievements == PickAchievements(seed, days, today, |AchievementPool|)
  {
    achievements := [];
    var k := 0;
    while k < |AchievementPool|
      invariant 0 <= k <= |AchievementPool|
      invariant achievements == PickAchievements(seed, days, today, k)
    {
      var (code, title) := AchievementPool[k];
      if (seed + k * 7) % 2 == 0 {
        var earned := today - (seed + k) % Window(days);
        achievements := achievements + [AchievementItem(code, title, earned)];
      }
      assert achievements == PickAchievements(seed, days, today, k + 1);
      k := k + 1;
    }
  }

  /** `7k` and `k` have the same parity, so an entry is picked when `seed + k` is even. */
  lemma PickedParity(seed: nat, k: nat)
    ensures Picked(seed, k) <==> (seed + k) % 2 == 0
  {
    var q := (seed + k) / 2;
    var m := (seed + k) % 2;
    assert seed + k == 2 * q + m;
    ModUnique(seed + k * 7, 2, q + 3 * k, m);
  }

  /**
   * Which achievements a seed shows: an even seed gets the first, third and
   * fifth entries of the pool, an odd one the second and fourth.
   */
  lemma PickedBySeedParity(seed: nat, days: nat, today: int)
    ensures var codes := seq(|PickAchievements(seed, days, today, 5)|,
                             i requires 0 <= i < |PickAchievements(seed, days, today, 5)| =>
                               PickAchievements(seed, days, today, 5)[i].code);
      if seed % 2 == 0 then codes == ["FIRST_MESSAGE", "STREAK_7", "100_MESSAGES_SENT"]
      else codes == ["STREAK_3", "NO_ERRORS_5"]
  {
    if seed % 2 == 0 {
      PickedEvenSeed(seed, days, today);
    } else {
      PickedOddSeed(seed, days, today);
    }
  }

  /** An even seed picks pool entries 0, 2 and 4. */
  lemma PickedEvenSeed(seed: nat, days: nat, today: int)
    requires seed % 2 == 0
    ensures var picks := PickAchievements(seed, days, today, 5);
      |picks| == 3 && picks[0].code == "FIRST_MESSAGE" && picks[1].code == "STREAK_7"
      && picks[2].code == "100_MESSAGES_SENT"
  {
    var q := seed / 2;
    PickedParity(seed, 0);
    PickedParity(seed, 1);
    PickedParity(seed, 2);
    PickedParity(seed, 3);
    PickedParity(seed, 4);
    ModUnique(seed + 1, 2, q, 1);
    ModUnique(seed + 2, 2, q + 1, 0);
    ModUnique(seed + 3, 2, q + 1, 1);
    ModUnique(seed + 4, 2, q + 2, 0);
    var p1 := PickAchievements(seed, days, today, 1);
    var p3 := PickAchievements(seed, days, today, 3);
    assert |p1| == 1 && p1[0].code == "FIRST_MESSAGE";
    assert PickAchievements(seed, days, today, 2) == p1;
    assert |p3| == 2 && p3[1].code == "STREAK_7";
    assert PickAchievements(seed, days, today, 4) == p3;
  }

  /** An odd seed picks pool entries 1 and 3. */
  lemma PickedOddSeed(seed: nat, days: nat, today: int)
    requires seed % 2 == 1
    ensures var picks := PickAchievements(seed, days, today, 5);
      |picks| == 2 && picks[0].code == "STREAK_3" && picks[1].code == "NO_ERRORS_5"
  {
    var q := seed / 2;
    PickedParity(seed, 0);
    PickedParity(seed, 1);
    PickedParity(seed, 2);
    PickedParity(seed, 3);
    PickedParity(seed, 4);
    ModUnique(seed + 1, 2, q + 1, 0);
    ModUnique(seed + 2, 2, q + 1, 1);
    ModUnique(seed + 3, 2, q + 2, 0);
    ModUnique(seed + 4, 2, q + 2, 1);
    var p2 := PickAchievements(seed, days, today, 2);
    var p4 := PickAchievements(seed, days, today, 4);
    assert PickAchievements(seed, days, today, 1) == [];
    assert |p2| == 1 && p2[0].code == "STREAK_3";
    assert PickAchievements(seed, days, today, 3) == p2;
    assert |p4| == 2 && p4[1].code == "NO_ERRORS_5";
  }

  const InvalidQuery: HttpError := ValidationFailed

  /** What `stats` answers for a normalised username, a period and its seed. */
  function StatsFor(period: Period, today: int, seed: nat): (r: StatsOut)
    ensures |r.timeseries| == Days(period) && |r.errorsByType| == |ErrorTypes|
    ensures r.messagesCount == SumMessages(r.timeseries) && r.errorsCount == SumErrors(r.timeseries)
    ensures 0 <= r.messagesCount <= 6 * Days(period) && 0 <= r.errorsCount <= 10 * Days(period)
    ensures forall j :: 0 <= j < |ErrorTypes| ==> r.errorsByType[j].kind == ErrorTypes[j] && 0 <= r.errorsByType[j].count <= 11
  {
    var days := Days(period);
    var ts := seq(days, i requires 0 <= i < days => Point(seed, days, today, i));
    SumsBounded(ts);
    var ebt := seq(|ErrorTypes|, j requires 0 <= j < |ErrorTypes| => ErrorsByTypePoint(ErrorTypes[j], TypeCount(seed, j)));
    StatsOut(period, SumMessages(ts), SumErrors(ts), ts, ebt, PickAchievements(seed, days, today, |AchievementPool|))
  }

  /** The body of `stats` once the seed is known: the three loops and the totals. */
  method StatsOf(period: Period, today: int, seed: nat) returns (out: StatsOut)
    ensures out == StatsFor(period, today, seed)
  {
    var days := Days(period);
    var ts, totalMsgs, totalErr := Timeseries(seed, days, today);
    var ebt := ErrorsByType(seed);
    var achievements := Achievements(seed, days, today);
    assert ts == seq(days, i requires 0 <= i < days => Point(seed, days, today, i));
    assert ebt == seq(|ErrorTypes|, j requires 0 <= j < |ErrorTypes| => ErrorsByTypePoint(ErrorTypes[j], TypeCount(seed, j)));
    out := StatsOut(period, totalMsgs, totalErr, ts, ebt, achievements);
  }

  /** The key hashed into the seed: `f"{username}:{period}"`. */
  function SeedKey(username: string, period: Period): string
  {
    username + ":" + PeriodName(period)
  }

  /**
   * `stats`: 422 for an empty `tg_username` or a period outside the three
   * (`None` is the default, "week"); otherwise the statistics for the
   * username stripped of whitespace and leading "@", which therefore depend
   * only on that normalised name and the period.
   */
  method Stats(tgUsername: string, period: Option<string>, today: int, seedOf: string -> nat)
    returns (r: Result<StatsOut, HttpError>)
    ensures |tgUsername| == 0 ==> r == Err(InvalidQuery)
    ensures period.Some? && ParsePeriod(period.value).None? ==> r == Err(InvalidQuery)
    ensures r.Ok? ==> r.value.period == ParsePeriod(if period.Some? then period.value else "week").value
    ensures r.Ok? ==>
      r.value == StatsFor(r.value.period, today, seedOf(SeedKey(NormalizeUsername(tgUsername), r.value.period)))
    ensures |tgUsername| > 0 && (period.None? || ParsePeriod(period.value).Some?) ==> r.Ok?
  {
    if |tgUsername| < 1 {
      return Err(InvalidQuery);
    }
    var p := ParsePeriod(if period.Some? then period.value else "week");
    if p.None? {
      return Err(InvalidQuery);
    }
    var username := NormalizeUsername(tgUsername);
    var seed := seedOf(SeedKey(username, p.value));
    var out := StatsOf(p.value, today, seed);
    r := Ok(out);
  }
}
