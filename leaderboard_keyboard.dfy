/**
 * The leaderboard's inline keyboard (services/bot/src/buttons/leaderboard.py):
 * previous, exit and next buttons, cycling through the three categories.
 *
 * Python's `%` with a positive divisor is never negative, as Dafny's is, so
 * the index arithmetic is written as in the source.
 */
module LeaderboardKeyboard {
  import opened Common
  import opened LeaderboardRouter

  /** `total_categories` */
  const TotalCategories: int := 3

  datatype Button = Button(text: string, callbackData: string)

  function NextIndex(current: int): (r: int)
    ensures 0 <= r < TotalCategories
  {
    (current + 1) % TotalCategories
  }

  function PrevIndex(current: int): (r: int)
    ensures 0 <= r < TotalCategories
  {
    (current - 1) % TotalCategories
  }

  /** On the categories themselves, next steps forward and wraps from the last to the first. */
  lemma NextIndexSteps(current: int)
    requires 0 <= current < TotalCategories
    ensures NextIndex(current) == if current == TotalCategories - 1 then 0 else current + 1
    ensures PrevIndex(current) == if current == 0 then TotalCategories - 1 else current - 1
  {
  }

  /** Going back after going forward, or forward after going back, returns to the index's category. */
  lemma PrevUndoesNext(current: int)
    ensures PrevIndex(NextIndex(current)) == current % TotalCategories
    ensures NextIndex(PrevIndex(current)) == current % TotalCategories
  {
    var q := current / TotalCategories;
    var m := current % TotalCategories;
    assert current == TotalCategories * q + m;
    if m == TotalCategories - 1 {
      ModUnique(current + 1, TotalCategories, q + 1, 0);
    } else {
      ModUnique(current + 1, TotalCategories, q, m + 1);
    }
    if m == 0 {
      ModUnique(current - 1, TotalCategories, q - 1, TotalCategories - 1);
    } else {
      ModUnique(current - 1, TotalCategories, q, m - 1);
    }
  }

  /** The callback data of a goto button: `f"lb:goto:{index}"` for an index in 0..2. */
  function GotoData(index: int): (r: string)
    requires 0 <= index < TotalCategories
    ensures |r| == 9 && r[..8] == "lb:goto:"
  {
    "lb:goto:" + [('0' as int + index) as char]
  }

  /** Reading a goto callback back into its index; anything else is None. */
  function ParseGoto(data: string): (r: Option<int>)
    ensures r.Some? ==> 0 <= r.value <= 9
  {
    if |data| == 9 && data[..8] == "lb:goto:" && '0' <= data[8] <= '9'
    then Some(data[8] as int - '0' as int)
    else None
  }

  lemma GotoRoundTrip(index: int)
    requires 0 <= index < TotalCategories
    ensures ParseGoto(GotoData(index)) == Some(index)
  {
  }

  const ExitData: string := "lb:exit"

  /** `leaderboard_kb`: one row of three buttons, previous, exit and next. */
  function LeaderboardKb(current: int): (r: seq<seq<Button>>)
    ensures |r| == 1 && |r[0]| == 3
    ensures r[0][0] == Button("◀️", GotoData(PrevIndex(current)))
    ensures r[0][1] == Button("Exit", ExitData)
    ensures r[0][2] == Button("▶️", GotoData(NextIndex(current)))
  {
    var next := NextIndex(current);
    var prev := PrevIndex(current);
    [[Button("◀️", GotoData(prev)), Button("Exit", ExitData), Button("▶️", GotoData(next))]]
  }

  /**
   * Every category a keyboard button leads to passes the endpoint's index
   * check, whatever index the keyboard was built from: the exit button
   * carries no index, and no button leads to a 400.
   */
  lemma KeyboardTargetsValid(current: int, b: Button,
                             byMessages: Result<seq<(LeaderUser, int)>, string>,
                             byErrors: Result<seq<(LeaderUser, int)>, string>,
                             byAchievements: Result<seq<(LeaderUser, int)>, string>)
    requires b in LeaderboardKb(current)[0]
    ensures b.callbackData == ExitData <==> ParseGoto(b.callbackData).None?
    ensures ParseGoto(b.callbackData).Some? ==>
      var target := ParseGoto(b.callbackData).value;
      ValidIndex(target)
      && GetLeaderboard(target, byMessages, byErrors, byAchievements) != Err(InvalidCategory)
  {
    GotoRoundTrip(PrevIndex(current));
    GotoRoundTrip(NextIndex(current));
    assert ParseGoto(ExitData).None?;
  }
}
