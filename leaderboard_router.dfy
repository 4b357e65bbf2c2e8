/**
 * The leaderboard endpoint (services/backend/src/routers/leaderboard.py):
 * an index into three categories is checked, the category's top-ten query
 * is run, and its (user, value) rows are shaped into entries.
 *
 * The three queries (services/backend/src/database/crud/leaderboard.py) are
 * SQL and are parameters here: each gives its rows, best first, or raises
 * an exception whose `str` is the `Err` text.
 */
module LeaderboardRouter {
  import opened Common

  /** `CATEGORIES` */
  const Categories: seq<string> := ["messages", "errors", "achievements"]

  /** `limit=10` on every query. */
  const TopLimit: int := 10

  const InvalidCategory: HttpError := HttpError(400, "Invalid category index")

  /** The columns of `users` an entry shows. */
  datatype LeaderUser = LeaderUser(username: Option<string>, tgId: int)

  /** `LeaderboardEntry`: `username` is nullable; `user_id` carries the Telegram id. */
  datatype LeaderboardEntry = LeaderboardEntry(username: Option<string>, value: int, userId: int)

  datatype LeaderboardResponse = LeaderboardResponse(
    category: string,
    entries: seq<LeaderboardEntry>,
    currentIndex: int,
    totalCategories: int)

  /** The index check made before the queries run. */
  predicate ValidIndex(i: int)
  {
    0 <= i < |Categories|
  }

  /** The list comprehension building the entries, in query order. */
  function Entries(rows: seq<(LeaderUser, int)>): (r: seq<LeaderboardEntry>)
    ensures |r| == |rows|
    ensures forall k :: 0 <= k < |rows| ==>
      r[k] == LeaderboardEntry(rows[k].0.username, rows[k].1, rows[k].0.tgId)
  {
    if rows == [] then []
    else [LeaderboardEntry(rows[0].0.username, rows[0].1, rows[0].0.tgId)] + Entries(rows[1..])
  }

  /**
   * `get_leaderboard`: 400 for an index outside the categories, raised
   * before the `try`, so it never turns into a 503; otherwise the category's
   * rows as entries, echoing the index and the number of categories, or 503
   * with the exception's text when the query raises.
   */
  function GetLeaderboard(index: int,
                          byMessages: Result<seq<(LeaderUser, int)>, string>,
                          byErrors: Result<seq<(LeaderUser, int)>, string>,
                          byAchievements: Result<seq<(LeaderUser, int)>, string>)
    : (r: Result<LeaderboardResponse, HttpError>)
    ensures !ValidIndex(index) <==> r.Err? && r.error.status == 400
    ensures !ValidIndex(index) ==> r == Err(InvalidCategory)
    ensures ValidIndex(index) ==>
      var rows := [byMessages, byErrors, byAchievements][index];
      (rows.Err? ==> r == Err(HttpError(503, "Database error: " + rows.error)))
      && (rows.Ok? ==> r == Ok(LeaderboardResponse(Categories[index], Entries(rows.value), index, 3)))
  {
    if !(0 <= index < |Categories|) then Err(InvalidCategory)
    else
      var category := Categories[index];
      // The last `elif` always holds: the category is one of the three.
      var rows := if category == "messages" then byMessages
                  else if category == "errors" then byErrors
                  else byAchievements;
      match rows
      case Err(e) => Err(HttpError(503, "Database error: " + e))
      case Ok(entries) => Ok(LeaderboardResponse(category, Entries(entries), index, |Categories|))
  }
}
