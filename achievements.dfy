/**
 * The achievement tables and the queries over them
 * (services/backend/src/database/crud/achievement.py).
 *
 * Each SQL table is a sequence of rows in insertion order. The session is
 * `AchievementStore`: the catalogue, the messages and the errors are only
 * read here, and `user_achievements` is the one table the award adds to.
 * `earned_at` defaults to the wall clock at insertion, which is the
 * parameter `now`. The clock may read earlier than a stored row, so the
 * table need not be in `earned_at` order; the query that orders by it sorts.
 */
module Achievements {
  import opened Common

  /** A row of `achievements`, the catalogue. */
  datatype Achievement = Achievement(id: int, code: int, title: string, description: string)

  /** A row of `user_achievements`. */
  datatype UserAchievement = UserAchievement(userId: int, achievementId: int, earnedAt: int)

  /** The columns of `messages` the counting queries use. */
  datatype MessageRow = MessageRow(id: int, userId: int)

  /** The column of `errors` the counting queries use. */
  datatype ErrorRow = ErrorRow(id: int, msgId: int)

  /** What `get_user_achievements` returns: the achievement and the user's total. */
  datatype AchievementView = AchievementView(id: int, title: string, description: string, earnedAt: int, total: int)

  /** The catalogue's ids; each one is found by `FindById`. */
  function Ids(catalogue: seq<Achievement>): (r: set<int>)
    ensures forall a :: a in catalogue ==> a.id in r
    ensures forall id :: id in r ==> FindById(catalogue, id).Some?
  {
    if catalogue == [] then {} else {catalogue[0].id} + Ids(catalogue[1..])
  }

  function Codes(catalogue: seq<Achievement>): set<int>
  {
    set a | a in catalogue :: a.code
  }

  /** `id` is the primary key: no two catalogue rows share one. */
  predicate DistinctIds(catalogue: seq<Achievement>)
  {
    forall i, j :: 0 <= i < j < |catalogue| ==> catalogue[i].id != catalogue[j].id
  }

  /** `id` is the primary key, issued from 1 upwards, and `code` is unique. */
  predicate CatalogueValid(catalogue: seq<Achievement>)
  {
    DistinctIds(catalogue)
    && (forall i, j :: 0 <= i < j < |catalogue| ==> catalogue[i].code != catalogue[j].code)
    && (forall a :: a in catalogue ==> a.id > 0)
  }

  /** `get_total_achievements_count` counts the catalogue's rows, one per id. */
  lemma {:induction false} CatalogueIdsCount(catalogue: seq<Achievement>)
    requires DistinctIds(catalogue)
    ensures |Ids(catalogue)| == |catalogue|
    decreases |catalogue|
  {
    if catalogue != [] {
      var rest := catalogue[1..];
      assert DistinctIds(rest) by {
        forall i, j | 0 <= i < j < |rest| ensures rest[i].id != rest[j].id {
          assert rest[i] == catalogue[i + 1] && rest[j] == catalogue[j + 1];
        }
      }
      CatalogueIdsCount(rest);
    }
  }

  /** With `code` unique, the catalogue has as many codes as rows. */
  lemma {:induction false} CatalogueCodesCount(catalogue: seq<Achievement>)
    requires CatalogueValid(catalogue)
    ensures |Codes(catalogue)| == |catalogue|
    decreases |catalogue|
  {
    if catalogue != [] {
      CatalogueTail(catalogue);
      CatalogueCodesCount(catalogue[1..]);
    }
  }

  /** The first row's code is new to the rest of a valid catalogue, which is valid too. */
  lemma CatalogueTail(catalogue: seq<Achievement>)
    requires CatalogueValid(catalogue) && catalogue != []
    ensures CatalogueValid(catalogue[1..])
    ensures Codes(catalogue) == {catalogue[0].code} + Codes(catalogue[1..])
    ensures catalogue[0].code !in Codes(catalogue[1..])
  {
    var rest := catalogue[1..];
    forall i, j | 0 <= i < j < |rest| ensures rest[i] == catalogue[i + 1] && rest[j] == catalogue[j + 1] {
    }
    assert catalogue == [catalogue[0]] + rest;
    forall a | a in rest ensures a.code != catalogue[0].code {
      var k :| 0 <= k < |rest| && rest[k] == a;
      assert catalogue[k + 1] == a;
    }
  }

  /** `select(Achievements).where(code == code).scalar_one_or_none()` */
  function FindByCode(catalogue: seq<Achievement>, code: int): (r: Option<Achievement>)
    ensures r.Some? ==> r.value in catalogue && r.value.code == code
    ensures r.None? ==> forall a :: a in catalogue ==> a.code != code
  {
    if catalogue == [] then None
    else if catalogue[0].code == code then Some(catalogue[0])
    else FindByCode(catalogue[1..], code)
  }

  /** The catalogue row a `user_achievements` row joins with. */
  function FindById(catalogue: seq<Achievement>, id: int): (r: Option<Achievement>)
    ensures r.Some? ==> r.value in catalogue && r.value.id == id
    ensures r.None? ==> forall a :: a in catalogue ==> a.id != id
  {
    if catalogue == [] then None
    else if catalogue[0].id == id then Some(catalogue[0])
    else FindById(catalogue[1..], id)
  }

  /** The rows of `user_achievements` that belong to `user`, in table order. */
  function UserRows(rows: seq<UserAchievement>, user: int): (r: seq<UserAchievement>)
    ensures |r| <= |rows|
    ensures forall x :: x in r <==> x in rows && x.userId == user
  {
    if rows == [] then []
    else
      var init := rows[..|rows| - 1];
      var last := rows[|rows| - 1];
      assert rows == init + [last];
      UserRows(init, user) + (if last.userId == user then [last] else [])
  }

  /** The achievement ids `user` holds. */
  function HeldIds(rows: seq<UserAchievement>, user: int): set<int>
  {
    set x | x in rows && x.userId == user :: x.achievementId
  }

  /** `get_user_achievement_codes`: the codes of the catalogue rows joined with the user's rows. */
  function HeldCodes(catalogue: seq<Achievement>, rows: seq<UserAchievement>, user: int): (r: set<int>)
    ensures r <= Codes(catalogue)
  {
    set a | a in catalogue && a.id in HeldIds(rows, user) :: a.code
  }

  /** A user holds each achievement at most once. */
  predicate NoDuplicateAwards(rows: seq<UserAchievement>)
  {
    forall i, j :: 0 <= i < j < |rows| && rows[i].userId == rows[j].userId ==>
      rows[i].achievementId != rows[j].achievementId
  }

  /** `earned_at` never decreases along the sequence. */
  predicate EarnedInOrder(rows: seq<UserAchievement>)
  {
    forall i, j :: 0 <= i < j < |rows| ==> rows[i].earnedAt <= rows[j].earnedAt
  }

  /** The foreign key from `user_achievements.achievement_id` to the catalogue. */
  predicate JoinsCatalogue(catalogue: seq<Achievement>, rows: seq<UserAchievement>)
  {
    forall x :: x in rows ==> x.achievementId in Ids(catalogue)
  }

  /** The foreign key, and no achievement held twice (the award checks before inserting). */
  predicate RowsValid(catalogue: seq<Achievement>, rows: seq<UserAchievement>)
  {
    JoinsCatalogue(catalogue, rows) && NoDuplicateAwards(rows)
  }

  /** Two catalogue rows sharing an id or a code are the same row. */
  lemma SameRow(catalogue: seq<Achievement>, a: Achievement, b: Achievement)
    requires CatalogueValid(catalogue) && a in catalogue && b in catalogue
    requires a.id == b.id || a.code == b.code
    ensures a == b
  {
    var i :| 0 <= i < |catalogue| && catalogue[i] == a;
    var j :| 0 <= j < |catalogue| && catalogue[j] == b;
    assert i == j;
  }

  /** With the catalogue's keys unique, holding a code and holding its row are the same. */
  lemma HeldCodesOfCatalogue(catalogue: seq<Achievement>, rows: seq<UserAchievement>, user: int, a: Achievement)
    requires CatalogueValid(catalogue) && a in catalogue
    ensures a.code in HeldCodes(catalogue, rows, user) <==> a.id in HeldIds(rows, user)
  {
    if a.code in HeldCodes(catalogue, rows, user) {
      var b :| b in catalogue && b.id in HeldIds(rows, user) && b.code == a.code;
      var i, j :| 0 <= i < |catalogue| && 0 <= j < |catalogue| && catalogue[i] == a && catalogue[j] == b;
      assert i == j;
    }
  }

  /**
   * `get_user_achievements_count` counts the user's rows; since none is
   * repeated, that is the number of distinct achievements held.
   */
  lemma {:induction false} HeldCount(rows: seq<UserAchievement>, user: int)
    requires NoDuplicateAwards(rows)
    ensures |UserRows(rows, user)| == |HeldIds(rows, user)|
    decreases |rows|
  {
    if rows != [] {
      var init := rows[..|rows| - 1];
      var last := rows[|rows| - 1];
      assert NoDuplicateAwards(init);
      HeldCount(init, user);
      HeldIdsSnoc(rows, user);
      if last.userId == user {
        LastAwardFresh(rows);
      }
    }
  }

  /**
   * With the catalogue's keys unique and every row joined to the catalogue,
   * `get_user_achievements_count` equals the number of codes
   * `get_user_achievement_codes` returns.
   */
  lemma {:induction false} HeldCodesCount(catalogue: seq<Achievement>, rows: seq<UserAchievement>, user: int)
    requires CatalogueValid(catalogue) && RowsValid(catalogue, rows)
    ensures |HeldCodes(catalogue, rows, user)| == |UserRows(rows, user)|
    decreases |rows|
  {
    if rows != [] {
      HeldCodesSnoc(catalogue, rows, user);
      HeldCodesCount(catalogue, rows[..|rows| - 1], user);
    }
  }

  /** The last row adds one code and one row for its own user, and nothing for the others. */
  lemma HeldCodesSnoc(catalogue: seq<Achievement>, rows: seq<UserAchievement>, user: int)
    requires CatalogueValid(catalogue) && RowsValid(catalogue, rows) && rows != []
    ensures RowsValid(catalogue, rows[..|rows| - 1])
    ensures var init := rows[..|rows| - 1];
      var d := if rows[|rows| - 1].userId == user then 1 else 0;
      |HeldCodes(catalogue, rows, user)| == |HeldCodes(catalogue, init, user)| + d
      && |UserRows(rows, user)| == |UserRows(init, user)| + d
  {
    var init := rows[..|rows| - 1];
    var last := rows[|rows| - 1];
    assert rows == init + [last];
    RowsValidPrefix(catalogue, rows);
    if last.userId == user {
      assert last.achievementId in Ids(catalogue);
      var a := FindById(catalogue, last.achievementId).value;
      LastAwardFresh(rows);
      HeldCodesOfCatalogue(catalogue, init, user, a);
      AwardAddsHeldCode(catalogue, init, user, a, last.earnedAt);
      AwardAddsId(init, user, a.id, last.earnedAt);
    } else {
      HeldIdsSnoc(rows, user);
      assert HeldCodes(catalogue, rows, user) == HeldCodes(catalogue, init, user);
    }
  }

  /** Dropping the last row keeps the table's invariants. */
  lemma RowsValidPrefix(catalogue: seq<Achievement>, rows: seq<UserAchievement>)
    requires RowsValid(catalogue, rows) && rows != []
    ensures RowsValid(catalogue, rows[..|rows| - 1])
  {
    var init := rows[..|rows| - 1];
    forall i, j | 0 <= i < j < |init| ensures init[i] == rows[i] && init[j] == rows[j] {
    }
  }

  /** The ids held after the last row are those held before it, plus its own if it is the user's. */
  lemma HeldIdsSnoc(rows: seq<UserAchievement>, user: int)
    requires rows != []
    ensures var last := rows[|rows| - 1];
      HeldIds(rows, user) == HeldIds(rows[..|rows| - 1], user) + (if last.userId == user then {last.achievementId} else {})
  {
    assert rows == rows[..|rows| - 1] + [rows[|rows| - 1]];
  }

  /** Without duplicate awards, the last row's achievement is not held by its user before it. */
  lemma LastAwardFresh(rows: seq<UserAchievement>)
    requires rows != [] && NoDuplicateAwards(rows)
    ensures var last := rows[|rows| - 1];
      last.achievementId !in HeldIds(rows[..|rows| - 1], last.userId)
  {
    var init := rows[..|rows| - 1];
    var last := rows[|rows| - 1];
    forall k | 0 <= k < |init| && init[k].userId == last.userId
      ensures init[k].achievementId != last.achievementId
    {
      assert rows[k] == init[k];
    }
  }

  /** `get_messages_count` */
  function MessagesCount(messages: seq<MessageRow>, user: int): (r: nat)
    ensures r <= |messages|
    ensures r == 0 <==> forall m :: m in messages ==> m.userId != user
  {
    if messages == [] then 0
    else
      var init := messages[..|messages| - 1];
      var last := messages[|messages| - 1];
      assert messages == init + [last];
      MessagesCount(init, user) + (if last.userId == user then 1 else 0)
  }

  /** A new message counts for its author and for nobody else. */
  lemma MessagesCountAppend(messages: seq<MessageRow>, m: MessageRow, user: int)
    ensures MessagesCount(messages + [m], user) == MessagesCount(messages, user) + (if m.userId == user then 1 else 0)
  {
    assert (messages + [m])[..|messages|] == messages;
  }

  /** The ids of the user's messages. */
  function MessageIds(messages: seq<MessageRow>, user: int): set<int>
  {
    set m | m in messages && m.userId == user :: m.id
  }

  /** `messages.id` is the primary key. */
  predicate MessageIdsUnique(messages: seq<MessageRow>)
  {
    forall i, j :: 0 <= i < j < |messages| ==> messages[i].id != messages[j].id
  }

  /**
   * `get_errors_count`: the errors joined with the user's messages. With
   * `messages.id` a primary key an error joins at most one message, so the
   * join counts each error on one of the user's messages once.
   */
  function ErrorsCount(errors: seq<ErrorRow>, messages: seq<MessageRow>, user: int): (r: nat)
    ensures r <= |errors|
    ensures r == 0 <==> forall e :: e in errors ==> e.msgId !in MessageIds(messages, user)
  {
    if errors == [] then 0
    else
      var init := errors[..|errors| - 1];
      var last := errors[|errors| - 1];
      assert errors == init + [last];
      ErrorsCount(init, messages, user) + (if last.msgId in MessageIds(messages, user) then 1 else 0)
  }

  /** An error on another user's message does not count. */
  lemma ErrorsOnOthersIgnored(errors: seq<ErrorRow>, messages: seq<MessageRow>, user: int, m: MessageRow, e: ErrorRow)
    requires MessageIdsUnique(messages)
    requires m in messages && m.userId != user && e.msgId == m.id
    ensures ErrorsCount(errors + [e], messages, user) == ErrorsCount(errors, messages, user)
  {
    assert (errors + [e])[..|errors|] == errors;
  }

  /** An error on one of the user's messages counts once. */
  lemma ErrorsOnOwnCounted(errors: seq<ErrorRow>, messages: seq<MessageRow>, user: int, m: MessageRow, e: ErrorRow)
    requires m in messages && m.userId == user && e.msgId == m.id
    ensures ErrorsCount(errors + [e], messages, user) == ErrorsCount(errors, messages, user) + 1
  {
    assert (errors + [e])[..|errors|] == errors;
    assert e.msgId in MessageIds(messages, user);
  }

  /** The catalogue row of each of `rows`, as the inner join pairs them. */
  function JoinRows(catalogue: seq<Achievement>, rows: seq<UserAchievement>): (r: seq<(Achievement, UserAchievement)>)
    ensures |r| <= |rows|
  {
    if rows == [] then []
    else
      var init := rows[..|rows| - 1];
      var last := rows[|rows| - 1];
      JoinRows(catalogue, init)
        + (match FindById(catalogue, last.achievementId)
           case Some(a) => [(a, last)]
           case None => [])
  }

  /** With the foreign key in place the join drops no row. */
  lemma {:induction false} JoinRowsComplete(catalogue: seq<Achievement>, rows: seq<UserAchievement>)
    requires forall x :: x in rows ==> x.achievementId in Ids(catalogue)
    ensures |JoinRows(catalogue, rows)| == |rows|
    ensures forall i :: 0 <= i < |rows| ==>
      JoinRows(catalogue, rows)[i].1 == rows[i]
      && FindById(catalogue, rows[i].achievementId) == Some(JoinRows(catalogue, rows)[i].0)
    decreases |rows|
  {
    if rows != [] {
      var init := rows[..|rows| - 1];
      var last := rows[|rows| - 1];
      assert rows == init + [last];
      JoinRowsComplete(catalogue, init);
      assert FindById(catalogue, last.achievementId).Some? by {
        var a :| a in catalogue && a.id == last.achievementId;
      }
    }
  }

  /**
   * `x` placed after every row of `s` earned no later than it and before the
   * first one earned later: one step of a stable insertion sort.
   */
  function InsertByEarned(s: seq<UserAchievement>, x: UserAchievement): (r: seq<UserAchievement>)
    ensures |r| == |s| + 1
    decreases |s|
  {
    if s == [] || x.earnedAt < s[0].earnedAt then [x] + s
    else
      assert s == [s[0]] + s[1..];
      [s[0]] + InsertByEarned(s[1..], x)
  }

  /** `order_by(earned_at)`: the rows sorted by `earned_at`, ties in table order. */
  function SortByEarned(rows: seq<UserAchievement>): (r: seq<UserAchievement>)
    ensures |r| == |rows|
    decreases |rows|
  {
    if rows == [] then []
    else
      var init := rows[..|rows| - 1];
      var last := rows[|rows| - 1];
      assert rows == init + [last];
      InsertByEarned(SortByEarned(init), last)
  }

  /** Inserting adds exactly one occurrence of `x`. */
  lemma {:induction false} InsertByEarnedPermutes(s: seq<UserAchievement>, x: UserAchievement)
    ensures multiset(InsertByEarned(s, x)) == multiset(s) + multiset{x}
    decreases |s|
  {
    if s != [] && x.earnedAt >= s[0].earnedAt {
      InsertByEarnedPermutes(s[1..], x);
      assert s == [s[0]] + s[1..];
    }
  }

  /** The sort's output is a permutation of its input. */
  lemma {:induction false} SortByEarnedPermutes(rows: seq<UserAchievement>)
    ensures multiset(SortByEarned(rows)) == multiset(rows)
    decreases |rows|
  {
    if rows != [] {
      var init := rows[..|rows| - 1];
      assert rows == init + [rows[|rows| - 1]];
      SortByEarnedPermutes(init);
      InsertByEarnedPermutes(SortByEarned(init), rows[|rows| - 1]);
    }
  }

  /** Inserting keeps the rows of `s` and adds `x`, and nothing else. */
  lemma InsertByEarnedMembers(s: seq<UserAchievement>, x: UserAchievement)
    ensures forall y :: y in InsertByEarned(s, x) <==> y in s || y == x
  {
    InsertByEarnedPermutes(s, x);
    forall y ensures y in InsertByEarned(s, x) <==> y in s || y == x {
      assert y in InsertByEarned(s, x) <==> y in multiset(InsertByEarned(s, x));
    }
  }

  /** The sort keeps exactly the rows it is given. */
  lemma SortByEarnedMembers(rows: seq<UserAchievement>)
    ensures forall y :: y in SortByEarned(rows) <==> y in rows
  {
    SortByEarnedPermutes(rows);
    forall y ensures y in SortByEarned(rows) <==> y in rows {
      assert y in SortByEarned(rows) <==> y in multiset(SortByEarned(rows));
    }
  }

  /** The rows earned at time `t`, in sequence order. */
  function EarnedAt(s: seq<UserAchievement>, t: int): (r: seq<UserAchievement>)
    ensures |r| <= |s|
    ensures forall y :: y in r <==> y in s && y.earnedAt == t
  {
    if s == [] then []
    else (if s[0].earnedAt == t then [s[0]] else []) + EarnedAt(s[1..], t)
  }

  /** Dropping the first row keeps a sequence sorted. */
  lemma OrderedTail(s: seq<UserAchievement>)
    requires EarnedInOrder(s) && s != []
    ensures EarnedInOrder(s[1..])
    ensures forall y :: y in s[1..] ==> s[0].earnedAt <= y.earnedAt
  {
    var rest := s[1..];
    forall i, j | 0 <= i < j < |rest| ensures rest[i].earnedAt <= rest[j].earnedAt {
      assert rest[i] == s[i + 1] && rest[j] == s[j + 1];
    }
    forall y | y in rest ensures s[0].earnedAt <= y.earnedAt {
      var k :| 0 <= k < |rest| && rest[k] == y;
      assert s[k + 1] == y;
    }
  }

  /** A row earned no later than every row of a sorted sequence can go in front of it. */
  lemma OrderedCons(h: UserAchievement, t: seq<UserAchievement>)
    requires EarnedInOrder(t)
    requires forall y :: y in t ==> h.earnedAt <= y.earnedAt
    ensures EarnedInOrder([h] + t)
  {
    var r := [h] + t;
    forall i, j | 0 <= i < j < |r| ensures r[i].earnedAt <= r[j].earnedAt {
      assert r[j] == t[j - 1];
      if i > 0 {
        assert r[i] == t[i - 1];
      } else {
        assert t[j - 1] in t;
      }
    }
  }

  /** Inserting into a sorted sequence keeps it sorted. */
  lemma {:induction false} InsertByEarnedOrdered(s: seq<UserAchievement>, x: UserAchievement)
    requires EarnedInOrder(s)
    ensures EarnedInOrder(InsertByEarned(s, x))
    decreases |s|
  {
    if s == [] {
      OrderedCons(x, s);
    } else if x.earnedAt < s[0].earnedAt {
      OrderedTail(s);
      OrderedCons(x, s);
    } else {
      var rest := s[1..];
      OrderedTail(s);
      InsertByEarnedOrdered(rest, x);
      InsertByEarnedMembers(rest, x);
      OrderedCons(s[0], InsertByEarned(rest, x));
    }
  }

  /** The sort's output is in `earned_at` order. */
  lemma {:induction false} SortByEarnedOrdered(rows: seq<UserAchievement>)
    ensures EarnedInOrder(SortByEarned(rows))
    decreases |rows|
  {
    if rows != [] {
      SortByEarnedOrdered(rows[..|rows| - 1]);
      InsertByEarnedOrdered(SortByEarned(rows[..|rows| - 1]), rows[|rows| - 1]);
    }
  }

  /** Selecting the rows of one time distributes over concatenation. */
  lemma {:induction false} EarnedAtAppend(a: seq<UserAchievement>, b: seq<UserAchievement>, t: int)
    ensures EarnedAt(a + b, t) == EarnedAt(a, t) + EarnedAt(b, t)
    decreases |a|
  {
    if a == [] {
      assert a + b == b;
    } else {
      assert (a + b)[0] == a[0] && (a + b)[1..] == a[1..] + b;
      EarnedAtAppend(a[1..], b, t);
    }
  }

  /** No row of a sorted sequence starting later than `t` was earned at `t`. */
  lemma EarnedAtLater(s: seq<UserAchievement>, t: int)
    requires EarnedInOrder(s) && s != [] && t < s[0].earnedAt
    ensures EarnedAt(s, t) == []
  {
    OrderedTail(s);
  }

  /** Inserting `x` into a sorted sequence puts it after the rows earned at the same time. */
  lemma {:induction false} InsertByEarnedStable(s: seq<UserAchievement>, x: UserAchievement, t: int)
    requires EarnedInOrder(s)
    ensures EarnedAt(InsertByEarned(s, x), t) == EarnedAt(s, t) + (if x.earnedAt == t then [x] else [])
    decreases |s|
  {
    if s == [] {
    } else if x.earnedAt < s[0].earnedAt {
      assert ([x] + s)[1..] == s;
      if x.earnedAt == t {
        EarnedAtLater(s, t);
      }
    } else {
      var rest := s[1..];
      assert EarnedInOrder(rest) by {
        forall i, j | 0 <= i < j < |rest| ensures rest[i].earnedAt <= rest[j].earnedAt {
          assert rest[i] == s[i + 1] && rest[j] == s[j + 1];
        }
      }
      InsertByEarnedStable(rest, x, t);
      assert ([s[0]] + InsertByEarned(rest, x))[1..] == InsertByEarned(rest, x);
    }
  }

  /**
   * The sort is stable: the rows earned at any one time keep their table
   * order.
   */
  lemma {:induction false} SortByEarnedStable(rows: seq<UserAchievement>, t: int)
    ensures EarnedAt(SortByEarned(rows), t) == EarnedAt(rows, t)
    decreases |rows|
  {
    if rows != [] {
      var init := rows[..|rows| - 1];
      var last := rows[|rows| - 1];
      assert rows == init + [last];
      SortByEarnedStable(init, t);
      SortByEarnedOrdered(init);
      InsertByEarnedStable(SortByEarned(init), last, t);
      EarnedAtAppend(init, [last], t);
    }
  }

  /** A row earned no earlier than every row of `s` is inserted at the end. */
  lemma {:induction false} InsertByEarnedLatest(s: seq<UserAchievement>, x: UserAchievement)
    requires forall y :: y in s ==> y.earnedAt <= x.earnedAt
    ensures InsertByEarned(s, x) == s + [x]
    decreases |s|
  {
    if s != [] {
      assert s[0] in s;
      InsertByEarnedLatest(s[1..], x);
      assert s == [s[0]] + s[1..];
    }
  }

  /** Rows already in `earned_at` order are left as they are. */
  lemma {:induction false} SortByEarnedOfOrdered(rows: seq<UserAchievement>)
    requires EarnedInOrder(rows)
    ensures SortByEarned(rows) == rows
    decreases |rows|
  {
    if rows != [] {
      var init := rows[..|rows| - 1];
      var last := rows[|rows| - 1];
      assert rows == init + [last];
      assert EarnedInOrder(init);
      SortByEarnedOfOrdered(init);
      forall y | y in init ensures y.earnedAt <= last.earnedAt {
        var k :| 0 <= k < |init| && init[k] == y;
        assert rows[k] == y;
      }
      InsertByEarnedLatest(init, last);
    }
  }

  /**
   * `get_user_achievements`: None for a user without achievements; otherwise
   * the row at `index % total` of the user's rows in `earned_at` order, with
   * the total. Python's `%` with a positive divisor is never negative, as
   * Dafny's is.
   */
  function GetUserAchievements(catalogue: seq<Achievement>, rows: seq<UserAchievement>, user: int, index: int)
    : (r: Option<AchievementView>)
    ensures |UserRows(rows, user)| == 0 ==> r.None?
    ensures r.Some? ==> r.value.total == |UserRows(rows, user)| > 0
  {
    var total := |UserRows(rows, user)|;
    if total == 0 then None
    else RowView(catalogue, SortByEarned(UserRows(rows, user)), index % total, total)
  }

  /** `offset(k).limit(1)` on the join of `ordered` with the catalogue, reported with `total`. */
  function RowView(catalogue: seq<Achievement>, ordered: seq<UserAchievement>, k: int, total: int)
    : (r: Option<AchievementView>)
    ensures r.Some? ==> r.value.total == total && 0 <= k < |ordered|
  {
    var joined := JoinRows(catalogue, ordered);
    if 0 <= k < |joined| then
      var (a, x) := joined[k];
      Some(AchievementView(a.id, a.title, a.description, x.earnedAt, total))
    else None
  }

  /** With the foreign key in place, position `k` of `ordered` is shown with its catalogue entry. */
  lemma RowViewSelects(catalogue: seq<Achievement>, ordered: seq<UserAchievement>, k: int, total: int)
    requires JoinsCatalogue(catalogue, ordered) && 0 <= k < |ordered|
    ensures var r := RowView(catalogue, ordered, k, total);
      r.Some? && r.value.id == ordered[k].achievementId && r.value.earnedAt == ordered[k].earnedAt
      && FindById(catalogue, r.value.id).Some?
      && FindById(catalogue, r.value.id).value.title == r.value.title
      && FindById(catalogue, r.value.id).value.description == r.value.description
  {
    JoinRowsComplete(catalogue, ordered);
  }

  /**
   * Every index selects a row, negative ones included: the one at position
   * `index % total` of the user's rows sorted by `earned_at`, with its
   * catalogue entry.
   */
  lemma GetUserAchievementsSelects(catalogue: seq<Achievement>, rows: seq<UserAchievement>, user: int, index: int)
    requires JoinsCatalogue(catalogue, rows)
    requires |UserRows(rows, user)| > 0
    ensures var sorted := SortByEarned(UserRows(rows, user));
      var k := index % |sorted|;
      var r := GetUserAchievements(catalogue, rows, user, index);
      0 <= k < |sorted| && r.Some?
      && r.value.id == sorted[k].achievementId && r.value.earnedAt == sorted[k].earnedAt
      && FindById(catalogue, r.value.id).Some?
      && FindById(catalogue, r.value.id).value.title == r.value.title
      && FindById(catalogue, r.value.id).value.description == r.value.description
  {
    var sorted := SortByEarned(UserRows(rows, user));
    SortByEarnedMembers(UserRows(rows, user));
    assert JoinsCatalogue(catalogue, sorted);
    RowViewSelects(catalogue, sorted, index % |sorted|, |sorted|);
  }

  /** Stepping the index through 0 .. total - 1 visits the achievements in the order they were earned. */
  lemma GetUserAchievementsInEarnedOrder(catalogue: seq<Achievement>, rows: seq<UserAchievement>, user: int,
                                         i: int, j: int)
    requires JoinsCatalogue(catalogue, rows)
    requires 0 <= i <= j < |UserRows(rows, user)|
    ensures GetUserAchievements(catalogue, rows, user, i).Some? && GetUserAchievements(catalogue, rows, user, j).Some?
    ensures GetUserAchievements(catalogue, rows, user, i).value.earnedAt
         <= GetUserAchievements(catalogue, rows, user, j).value.earnedAt
  {
    var total := |UserRows(rows, user)|;
    var sorted := SortByEarned(UserRows(rows, user));
    SortByEarnedMembers(UserRows(rows, user));
    assert JoinsCatalogue(catalogue, sorted);
    ModUnique(i, total, 0, i);
    ModUnique(j, total, 0, j);
    assert GetUserAchievements(catalogue, rows, user, i) == RowView(catalogue, sorted, i, total);
    assert GetUserAchievements(catalogue, rows, user, j) == RowView(catalogue, sorted, j, total);
    RowViewSelects(catalogue, sorted, i, total);
    RowViewSelects(catalogue, sorted, j, total);
    SortByEarnedOrdered(UserRows(rows, user));
    assert sorted[i].earnedAt <= sorted[j].earnedAt;
  }

  /** Index 0 shows an achievement the user earned first. */
  lemma GetUserAchievementsEarliestFirst(catalogue: seq<Achievement>, rows: seq<UserAchievement>, user: int)
    requires JoinsCatalogue(catalogue, rows)
    requires |UserRows(rows, user)| > 0
    ensures GetUserAchievements(catalogue, rows, user, 0).Some?
    ensures forall x :: x in rows && x.userId == user ==>
      GetUserAchievements(catalogue, rows, user, 0).value.earnedAt <= x.earnedAt
  {
    var sorted := SortByEarned(UserRows(rows, user));
    SortByEarnedMembers(UserRows(rows, user));
    assert JoinsCatalogue(catalogue, sorted);
    RowViewSelects(catalogue, sorted, 0, |sorted|);
    SortByEarnedOrdered(UserRows(rows, user));
    forall x | x in rows && x.userId == user ensures sorted[0].earnedAt <= x.earnedAt {
      var k :| 0 <= k < |sorted| && sorted[k] == x;
    }
  }

  /** Shifting the index by the total selects the same achievement. */
  lemma GetUserAchievementsCycles(catalogue: seq<Achievement>, rows: seq<UserAchievement>, user: int, index: int)
    ensures GetUserAchievements(catalogue, rows, user, index + |UserRows(rows, user)|)
         == GetUserAchievements(catalogue, rows, user, index)
  {
    var total := |UserRows(rows, user)|;
    if total > 0 {
      var sorted := SortByEarned(UserRows(rows, user));
      ModShift(index, total);
      var k := index % total;
      assert GetUserAchievements(catalogue, rows, user, index) == RowView(catalogue, sorted, k, total);
      assert GetUserAchievements(catalogue, rows, user, index + total) == RowView(catalogue, sorted, k, total);
    }
  }

  /**
   * A table in `earned_at` order, as a clock that never runs backwards
   * leaves it, keeps the user's rows in that order; with `SortByEarnedOfOrdered`
   * the query then reads them in table order.
   */
  lemma {:induction false} UserRowsInEarnedOrder(rows: seq<UserAchievement>, user: int)
    requires EarnedInOrder(rows)
    ensures EarnedInOrder(UserRows(rows, user))
    decreases |rows|
  {
    if rows != [] {
      var init := rows[..|rows| - 1];
      var last := rows[|rows| - 1];
      assert rows == init + [last];
      assert EarnedInOrder(init);
      UserRowsInEarnedOrder(init, user);
      var mine := UserRows(init, user);
      forall x | x in mine ensures x.earnedAt <= last.earnedAt {
        var k :| 0 <= k < |init| && init[k] == x;
        assert rows[k] == x;
      }
    }
  }

  /** The session, holding the tables these queries read and the one the award writes. */
  class AchievementStore {
    const catalogue: seq<Achievement>
    const messages: seq<MessageRow>
    const errors: seq<ErrorRow>
    var userAchievements: seq<UserAchievement>

    predicate Valid()
      reads this
    {
      CatalogueValid(catalogue) && RowsValid(catalogue, userAchievements)
    }

    constructor(catalogue: seq<Achievement>, messages: seq<MessageRow>, errors: seq<ErrorRow>,
                userAchievements: seq<UserAchievement>)
      requires CatalogueValid(catalogue) && RowsValid(catalogue, userAchievements)
      ensures Valid()
      ensures this.catalogue == catalogue && this.messages == messages && this.errors == errors
      ensures this.userAchievements == userAchievements
    {
      this.catalogue := catalogue;
      this.messages := messages;
      this.errors := errors;
      this.userAchievements := userAchievements;
    }
  }

  /**
   * Awarding `code` to `user` adds it to the held codes exactly when the
   * catalogue has it; the table keeps its invariants.
   */
  lemma AwardAddsCode(catalogue: seq<Achievement>, rows: seq<UserAchievement>, user: int, a: Achievement, now: int)
    requires CatalogueValid(catalogue) && RowsValid(catalogue, rows)
    requires a in catalogue && a.id !in HeldIds(rows, user)
    ensures var rows' := rows + [UserAchievement(user, a.id, now)];
      HeldIds(rows', user) == HeldIds(rows, user) + {a.id}
      && HeldCodes(catalogue, rows', user) == HeldCodes(catalogue, rows, user) + {a.code}
      && RowsValid(catalogue, rows')
      && |UserRows(rows', user)| == |UserRows(rows, user)| + 1
  {
    AwardAddsId(rows, user, a.id, now);
    AwardAddsHeldCode(catalogue, rows, user, a, now);
    AwardKeepsRowsValid(catalogue, rows, user, a, now);
  }

  /** A new row for `user` adds its id to the held ids and one row to the user's rows. */
  lemma AwardAddsId(rows: seq<UserAchievement>, user: int, id: int, now: int)
    ensures var rows' := rows + [UserAchievement(user, id, now)];
      HeldIds(rows', user) == HeldIds(rows, user) + {id}
      && |UserRows(rows', user)| == |UserRows(rows, user)| + 1
  {
    var rows' := rows + [UserAchievement(user, id, now)];
    assert rows'[..|rows|] == rows;
  }

  /** A new row for a catalogue achievement adds exactly its code to the held codes. */
  lemma AwardAddsHeldCode(catalogue: seq<Achievement>, rows: seq<UserAchievement>, user: int, a: Achievement, now: int)
    requires CatalogueValid(catalogue) && a in catalogue
    ensures var rows' := rows + [UserAchievement(user, a.id, now)];
      HeldCodes(catalogue, rows', user) == HeldCodes(catalogue, rows, user) + {a.code}
  {
    var rows' := rows + [UserAchievement(user, a.id, now)];
    AwardAddsId(rows, user, a.id, now);
    forall b | b in catalogue
      ensures b.code in HeldCodes(catalogue, rows', user) <==> b.code in HeldCodes(catalogue, rows, user) + {a.code}
    {
      HeldCodesOfCatalogue(catalogue, rows, user, b);
      HeldCodesOfCatalogue(catalogue, rows', user, b);
      if b.code == a.code || b.id == a.id {
        SameRow(catalogue, a, b);
      }
    }
  }

  /** A new row for an achievement the user does not hold keeps the table's invariants, whatever the clock reads. */
  lemma AwardKeepsRowsValid(catalogue: seq<Achievement>, rows: seq<UserAchievement>, user: int, a: Achievement, now: int)
    requires RowsValid(catalogue, rows)
    requires a in catalogue && a.id !in HeldIds(rows, user)
    ensures var rows' := rows + [UserAchievement(user, a.id, now)];
      RowsValid(catalogue, rows')
  {
    var rows' := rows + [UserAchievement(user, a.id, now)];
    assert Ids(catalogue) >= {a.id};
    assert NoDuplicateAwards(rows') by {
      forall i, j | 0 <= i < j < |rows'| && rows'[i].userId == rows'[j].userId
        ensures rows'[i].achievementId != rows'[j].achievementId
      {
        if j == |rows| {
          assert rows[i] in rows;
        }
      }
    }
  }

  /**
   * `award_achievement_by_code`: None and no change for a code missing from
   * the catalogue or already held; otherwise one row for the user, earned
   * `now`, and the achievement's id.
   */
  method AwardAchievementByCode(db: AchievementStore, user: int, code: int, now: int) returns (r: Option<int>)
    requires db.Valid()
    modifies db
    ensures db.Valid()
    ensures FindByCode(db.catalogue, code).None? ==> r.None? && db.userAchievements == old(db.userAchievements)
    ensures FindByCode(db.catalogue, code).Some? ==>
      var a := FindByCode(db.catalogue, code).value;
      if a.id in HeldIds(old(db.userAchievements), user) then
        r.None? && db.userAchievements == old(db.userAchievements)
      else
        r == Some(a.id) && db.userAchievements == old(db.userAchievements) + [UserAchievement(user, a.id, now)]
    ensures r.None? ==> db.userAchievements == old(db.userAchievements)
    ensures r.Some? ==> db.userAchievements == old(db.userAchievements) + [UserAchievement(user, r.value, now)]
    ensures r.Some? <==> code in Codes(db.catalogue) && code !in HeldCodes(db.catalogue, old(db.userAchievements), user)
    ensures HeldCodes(db.catalogue, db.userAchievements, user)
         == HeldCodes(db.catalogue, old(db.userAchievements), user) + (if code in Codes(db.catalogue) then {code} else {})
    ensures |UserRows(db.userAchievements, user)| == |UserRows(old(db.userAchievements), user)| + (if r.Some? then 1 else 0)
    ensures r.Some? ==> r.value > 0
  {
    var found := FindByCode(db.catalogue, code);
    if found.None? {
      assert code !in Codes(db.catalogue);
      return None;
    }
    var a := found.value;
    HeldCodesOfCatalogue(db.catalogue, db.userAchievements, user, a);
    if a.id in HeldIds(db.userAchievements, user) {
      return None;
    }
    AwardAddsCode(db.catalogue, db.userAchievements, user, a, now);
    db.userAchievements := db.userAchievements + [UserAchievement(user, a.id, now)];
    r := Some(a.id);
  }
}
