/**
 * Awarding achievements after a message
 * (services/backend/src/database/crud/messages_with_awards.py).
 *
 * The threshold dicts are sequences of (code, threshold) pairs in the
 * dicts' insertion order, which is the order the loops visit them in.
 */
module Awards {
  import opened Common
  import opened Achievements

  /** `MESSAGE_THRESHOLDS`: codes 1-4 for 1, 20, 100 and 1000 messages. */
  const MessageThresholds: seq<(int, int)> := [(1, 1), (2, 20), (3, 100), (4, 1000)]

  /** `ERROR_THRESHOLDS`: codes 5-7 for 1, 10 and 100 errors. */
  const ErrorThresholds: seq<(int, int)> := [(5, 1), (6, 10), (7, 100)]

  /** `META_CODES` */
  const FirstAnyCode: int := 9
  const CollectorCode: int := 10
  const CompletionistCode: int := 11

  /** The codes of `table` whose threshold `count` reaches. */
  function MetCodes(table: seq<(int, int)>, count: int): set<int>
  {
    set k | 0 <= k < |table| && count >= table[k].1 :: table[k].0
  }

  /** The message codes a count reaches, spelled out. */
  lemma MessageCodesMet(count: int)
    ensures MetCodes(MessageThresholds, count)
         == (if count >= 1 then {1} else {}) + (if count >= 20 then {2} else {})
          + (if count >= 100 then {3} else {}) + (if count >= 1000 then {4} else {})
  {
    var met := MetCodes(MessageThresholds, count);
    assert count >= 1 ==> MessageThresholds[0].0 in met;
    assert count >= 20 ==> MessageThresholds[1].0 in met;
    assert count >= 100 ==> MessageThresholds[2].0 in met;
    assert count >= 1000 ==> MessageThresholds[3].0 in met;
  }

  /** The error codes a count reaches, spelled out. */
  lemma ErrorCodesMet(count: int)
    ensures MetCodes(ErrorThresholds, count)
         == (if count >= 1 then {5} else {}) + (if count >= 10 then {6} else {}) + (if count >= 100 then {7} else {})
  {
    var met := MetCodes(ErrorThresholds, count);
    assert count >= 1 ==> ErrorThresholds[0].0 in met;
    assert count >= 10 ==> ErrorThresholds[1].0 in met;
    assert count >= 100 ==> ErrorThresholds[2].0 in met;
  }

  /** The table after a call: the rows before it, then new rows of `user` earned `now`. */
  predicate AppendedFor(before: seq<UserAchievement>, after: seq<UserAchievement>, user: int, now: int)
  {
    |before| <= |after| && after[..|before|] == before
    && forall k :: |before| <= k < |after| ==> after[k].userId == user && after[k].earnedAt == now
  }

  /**
   * As written, `completionist` is requested once the user's count reaches
   * the number of catalogue rows.
   */
  predicate CompletionistDueAsWritten(userCount: int, total: int)
  {
    userCount >= total && total > 0
  }

  /**
   * Since the catalogue row of `completionist` is one of the rows counted,
   * a user who does not hold it has fewer achievements than the catalogue
   * has rows: as written, the rule never requests it.
   */
  lemma CompletionistNeverDueAsWritten(catalogue: seq<Achievement>, rows: seq<UserAchievement>, user: int)
    requires CatalogueValid(catalogue) && RowsValid(catalogue, rows)
    requires CompletionistCode in Codes(catalogue) && CompletionistCode !in HeldCodes(catalogue, rows, user)
    ensures !CompletionistDueAsWritten(|UserRows(rows, user)|, |catalogue|)
  {
    var c :| c in catalogue && c.code == CompletionistCode;
    HeldAmongOthers(catalogue, rows, user, c);
    SubsetCard(HeldIds(rows, user), Ids(catalogue) - {c.id});
  }

  /** The evident intent: request `completionist` once the user holds every other achievement. */
  predicate CompletionistDue(userCount: int, total: int)
  {
    userCount + 1 >= total && total > 0
  }

  /**
   * The rows the user could still earn besides `completionist`: every id
   * held lies among the catalogue's other ids, and their numbers agree with
   * the counts the rules compare.
   */
  lemma HeldAmongOthers(catalogue: seq<Achievement>, rows: seq<UserAchievement>, user: int, c: Achievement)
    requires CatalogueValid(catalogue) && RowsValid(catalogue, rows)
    requires c in catalogue && c.code !in HeldCodes(catalogue, rows, user)
    ensures HeldIds(rows, user) <= Ids(catalogue) - {c.id}
    ensures |Ids(catalogue) - {c.id}| == |catalogue| - 1
    ensures |UserRows(rows, user)| == |HeldIds(rows, user)|
  {
    HeldCodesOfCatalogue(catalogue, rows, user, c);
    HeldCount(rows, user);
    CatalogueIdsCount(catalogue);
  }

  /** The catalogue's codes other than `completionist` all lie in `codes`. */
  ghost predicate AllOthersIn(catalogue: seq<Achievement>, codes: set<int>)
  {
    forall a :: a in catalogue && a.code != CompletionistCode ==> a.code in codes
  }

  /** Dropping `completionist` from a set keeps the other codes in it. */
  lemma AllOthersInWithout(catalogue: seq<Achievement>, codes: set<int>, fewer: set<int>)
    requires AllOthersIn(catalogue, codes) && codes <= fewer + {CompletionistCode}
    ensures AllOthersIn(catalogue, fewer)
  {
  }

  /** Holding every other achievement makes the corrected rule fire. */
  lemma AllOthersHeldMakesDue(catalogue: seq<Achievement>, rows: seq<UserAchievement>, user: int, c: Achievement)
    requires CatalogueValid(catalogue) && RowsValid(catalogue, rows)
    requires c in catalogue && c.code == CompletionistCode && CompletionistCode !in HeldCodes(catalogue, rows, user)
    requires AllOthersIn(catalogue, HeldCodes(catalogue, rows, user))
    ensures CompletionistDue(|UserRows(rows, user)|, |catalogue|)
  {
    var others := Ids(catalogue) - {c.id};
    HeldAmongOthers(catalogue, rows, user, c);
    forall id | id in others ensures id in HeldIds(rows, user) {
      var a :| a in catalogue && a.id == id;
      if a.code == c.code {
        SameRow(catalogue, a, c);
      }
      HeldCodesOfCatalogue(catalogue, rows, user, a);
    }
    SubsetCard(others, HeldIds(rows, user));
  }

  /** The corrected rule fires only for a user holding every other achievement. */
  lemma DueMeansAllOthersHeld(catalogue: seq<Achievement>, rows: seq<UserAchievement>, user: int, c: Achievement)
    requires CatalogueValid(catalogue) && RowsValid(catalogue, rows)
    requires c in catalogue && c.code == CompletionistCode && CompletionistCode !in HeldCodes(catalogue, rows, user)
    requires CompletionistDue(|UserRows(rows, user)|, |catalogue|)
    ensures AllOthersIn(catalogue, HeldCodes(catalogue, rows, user))
  {
    var others := Ids(catalogue) - {c.id};
    HeldAmongOthers(catalogue, rows, user, c);
    SubsetCard(HeldIds(rows, user), others);
    forall a | a in catalogue && a.code != CompletionistCode ensures a.code in HeldCodes(catalogue, rows, user) {
      if a.id == c.id {
        SameRow(catalogue, a, c);
      }
      assert a.id in others;
      HeldCodesOfCatalogue(catalogue, rows, user, a);
    }
  }

  /**
   * For a user without `completionist`, the corrected rule fires exactly
   * when every other achievement of the catalogue is held.
   */
  lemma CompletionistDueIffAllOthersHeld(catalogue: seq<Achievement>, rows: seq<UserAchievement>, user: int)
    requires CatalogueValid(catalogue) && RowsValid(catalogue, rows)
    requires CompletionistCode in Codes(catalogue) && CompletionistCode !in HeldCodes(catalogue, rows, user)
    ensures CompletionistDue(|UserRows(rows, user)|, |catalogue|)
        <==> AllOthersIn(catalogue, HeldCodes(catalogue, rows, user))
  {
    var c :| c in catalogue && c.code == CompletionistCode;
    if AllOthersIn(catalogue, HeldCodes(catalogue, rows, user)) {
      AllOthersHeldMakesDue(catalogue, rows, user, c);
    }
    if CompletionistDue(|UserRows(rows, user)|, |catalogue|) {
      DueMeansAllOthersHeld(catalogue, rows, user, c);
    }
  }

  /**
   * The same rule on sets of codes: for a set of catalogue codes without
   * `completionist`, the corrected rule applied to its size fires exactly
   * when it holds every other code of the catalogue.
   */
  lemma CompletionistDueIffAllOthersIn(catalogue: seq<Achievement>, codes: set<int>)
    requires CatalogueValid(catalogue) && codes <= Codes(catalogue)
    requires CompletionistCode in Codes(catalogue) && CompletionistCode !in codes
    ensures CompletionistDue(|codes|, |catalogue|) <==> AllOthersIn(catalogue, codes)
  {
    var others := Codes(catalogue) - {CompletionistCode};
    CatalogueCodesCount(catalogue);
    assert |others| == |catalogue| - 1;
    SubsetCard(codes, others);
    if AllOthersIn(catalogue, codes) {
      SubsetCard(others, codes);
    }
  }

  /** `ids` are the achievement ids of the rows `after` adds to `before`, in order. */
  predicate IdsOfNewRows(ids: seq<int>, before: seq<UserAchievement>, after: seq<UserAchievement>)
  {
    |before| + |ids| == |after|
    && forall k :: 0 <= k < |ids| ==> ids[k] == after[|before| + k].achievementId
  }

  /** One more row for `user`, earned `now`, keeps the shape of the table and of the ids. */
  lemma AppendedStep(start: seq<UserAchievement>, rows: seq<UserAchievement>, ids: seq<int>,
                     x: UserAchievement, user: int, now: int)
    requires |ids| > 0 && ids[|ids| - 1] == x.achievementId && x.userId == user && x.earnedAt == now
    requires AppendedFor(start, rows, user, now) && IdsOfNewRows(ids[..|ids| - 1], start, rows)
    ensures AppendedFor(start, rows + [x], user, now) && IdsOfNewRows(ids, start, rows + [x])
  {
    assert (rows + [x])[..|start|] == rows[..|start|];
  }

  lemma MetCodesStep(table: seq<(int, int)>, i: int, count: int)
    requires 0 <= i < |table|
    ensures MetCodes(table[..i + 1], count)
         == MetCodes(table[..i], count) + (if count >= table[i].1 then {table[i].0} else {})
  {
    var prefix := table[..i + 1];
    assert forall k :: 0 <= k < i ==> prefix[k] == table[..i][k];
    assert prefix[i] == table[i];
  }

  /** The held codes after one step of a threshold loop. */
  lemma HeldStep(start: set<int>, heldBefore: set<int>, heldAfter: set<int>,
                 metBefore: set<int>, metAfter: set<int>, catalogueCodes: set<int>, code: int, met: bool)
    requires heldBefore == start + metBefore * catalogueCodes
    requires metAfter == metBefore + (if met then {code} else {})
    requires heldAfter == heldBefore + (if met && code in catalogueCodes then {code} else {})
    ensures heldAfter == start + metAfter * catalogueCodes
  {
  }

  /** The id `award_achievement_by_code` inserts for `code`, when the catalogue has it: none or one. */
  function NewId(catalogue: seq<Achievement>, code: int): (r: seq<int>)
    ensures |r| <= 1
    ensures r != [] <==> code in Codes(catalogue)
  {
    match FindByCode(catalogue, code)
    case None => []
    case Some(a) => [a.id]
  }

  /**
   * The ids one threshold loop returns, in the order of `table`: a code is
   * awarded when `count` reaches its threshold and the user does not hold
   * it yet, counting the codes `held` before the loop and those the loop
   * has awarded so far.
   */
  function ThresholdIds(catalogue: seq<Achievement>, table: seq<(int, int)>, count: int, held: set<int>): (r: seq<int>)
    ensures |r| <= |table|
    decreases |table|
  {
    if table == [] then []
    else
      var init := table[..|table| - 1];
      var (code, threshold) := table[|table| - 1];
      ThresholdIds(catalogue, init, count, held)
        + RuleId(catalogue, held + MetCodes(init, count) * Codes(catalogue), code, count >= threshold)
  }

  lemma ThresholdIdsStep(catalogue: seq<Achievement>, table: seq<(int, int)>, i: int, count: int, held: set<int>)
    requires 0 <= i < |table|
    ensures ThresholdIds(catalogue, table[..i + 1], count, held)
         == ThresholdIds(catalogue, table[..i], count, held)
            + RuleId(catalogue, held + MetCodes(table[..i], count) * Codes(catalogue), table[i].0, count >= table[i].1)
  {
    assert table[..i + 1][..i] == table[..i];
  }

  /** With the catalogue's keys unique, the id awarding `code` inserts is that of the row with that code. */
  lemma NewIdOf(catalogue: seq<Achievement>, code: int, a: Achievement)
    requires CatalogueValid(catalogue) && a in catalogue
    ensures a.id in NewId(catalogue, code) <==> a.code == code
    ensures a.code == code ==> NewId(catalogue, code) == [a.id]
  {
    var found := FindByCode(catalogue, code);
    if found.Some? && (a.id == found.value.id || a.code == code) {
      SameRow(catalogue, a, found.value);
    }
  }

  /**
   * A threshold loop returns the id of a catalogue row exactly when the
   * count reaches that row's code in `table` and the user did not hold it
   * before the loop.
   */
  lemma {:induction false} ThresholdIdsAwardNew(catalogue: seq<Achievement>, table: seq<(int, int)>, count: int,
                                                held: set<int>, a: Achievement)
    requires CatalogueValid(catalogue) && a in catalogue
    ensures a.id in ThresholdIds(catalogue, table, count, held) <==> a.code in MetCodes(table, count) && a.code !in held
    decreases |table|
  {
    if table != [] {
      var i := |table| - 1;
      var init := table[..i];
      assert table[..i + 1] == table;
      MetCodesStep(table, i, count);
      ThresholdIdsAwardNew(catalogue, init, count, held, a);
      NewIdOf(catalogue, table[i].0, a);
    }
  }

  /** One turn of a threshold loop keeps the held codes and the ids in step with the table read so far. */
  lemma ThresholdLoopStep(catalogue: seq<Achievement>, table: seq<(int, int)>, i: int, count: int, heldAtStart: set<int>,
                          heldBefore: set<int>, heldAfter: set<int>, idsBefore: seq<int>, idsAfter: seq<int>)
    requires 0 <= i < |table|
    requires heldBefore == heldAtStart + MetCodes(table[..i], count) * Codes(catalogue)
    requires idsBefore == ThresholdIds(catalogue, table[..i], count, heldAtStart)
    requires heldAfter
          == heldBefore + (if count >= table[i].1 && table[i].0 in Codes(catalogue) then {table[i].0} else {})
    requires idsAfter == idsBefore + RuleId(catalogue, heldBefore, table[i].0, count >= table[i].1)
    ensures heldAfter == heldAtStart + MetCodes(table[..i + 1], count) * Codes(catalogue)
    ensures idsAfter == ThresholdIds(catalogue, table[..i + 1], count, heldAtStart)
  {
    MetCodesStep(table, i, count);
    ThresholdIdsStep(catalogue, table, i, count, heldAtStart);
    HeldStep(heldAtStart, heldBefore, heldAfter, MetCodes(table[..i], count), MetCodes(table[..i + 1], count),
             Codes(catalogue), table[i].0, count >= table[i].1);
  }

  /**
   * The guarded call inside a threshold loop: the award is attempted only
   * when the threshold is met and `existing` lacks the code.
   */
  method AwardIfDue(db: AchievementStore, user: int, code: int, met: bool, existing: set<int>, now: int)
    returns (id: Option<int>)
    requires db.Valid()
    requires existing <= HeldCodes(db.catalogue, db.userAchievements, user)
    modifies db
    ensures db.Valid()
    ensures id.Some? <==> met && code in Codes(db.catalogue) && code !in HeldCodes(db.catalogue, old(db.userAchievements), user)
    ensures id.None? ==> db.userAchievements == old(db.userAchievements)
    ensures id.Some? ==> id.value > 0 && db.userAchievements == old(db.userAchievements) + [UserAchievement(user, id.value, now)]
    ensures HeldCodes(db.catalogue, db.userAchievements, user)
         == HeldCodes(db.catalogue, old(db.userAchievements), user)
            + (if met && code in Codes(db.catalogue) then {code} else {})
    ensures |UserRows(db.userAchievements, user)| == |UserRows(old(db.userAchievements), user)| + (if id.Some? then 1 else 0)
    ensures (if id.Some? then [id.value] else [])
         == RuleId(db.catalogue, HeldCodes(db.catalogue, old(db.userAchievements), user), code, met)
  {
    if met && code !in existing {
      id := AwardAchievementByCode(db, user, code, now);
    } else {
      id := None;
      if met {
        var held := HeldCodes(db.catalogue, db.userAchievements, user);
        assert code in held;
        assert held + {code} == held;
      }
    }
  }

  /**
   * The guarded call followed by `if ach_id: awarded.append(ach_id)`: the
   * id of an inserted row is collected after those of the rows before it.
   */
  method AwardAndCollect(db: AchievementStore, user: int, code: int, met: bool, existing: set<int>,
                         ids: seq<int>, now: int, ghost start: seq<UserAchievement>)
    returns (ids': seq<int>)
    requires db.Valid()
    requires existing <= HeldCodes(db.catalogue, db.userAchievements, user)
    requires AppendedFor(start, db.userAchievements, user, now) && IdsOfNewRows(ids, start, db.userAchievements)
    modifies db
    ensures db.Valid()
    ensures AppendedFor(start, db.userAchievements, user, now) && IdsOfNewRows(ids', start, db.userAchievements)
    ensures ids' == ids + RuleId(db.catalogue, HeldCodes(db.catalogue, old(db.userAchievements), user), code, met)
    ensures HeldCodes(db.catalogue, db.userAchievements, user)
         == HeldCodes(db.catalogue, old(db.userAchievements), user)
            + (if met && code in Codes(db.catalogue) then {code} else {})
    ensures |UserRows(db.userAchievements, user)| == |UserRows(old(db.userAchievements), user)| + (|ids'| - |ids|)
  {
    ghost var before := db.userAchievements;
    var id := AwardIfDue(db, user, code, met, existing, now);
    ids' := ids;
    if id.Some? && id.value != 0 {
      ids' := ids + [id.value];
      AppendedStep(start, before, ids', UserAchievement(user, id.value, now), user, now);
    }
  }

  /**
   * One threshold loop: for each (code, threshold) of `table` in order, a
   * code that `count` reaches and that `existing` lacks is awarded, and the
   * ids of the inserted rows are collected in order.
   */
  method AwardThresholds(db: AchievementStore, user: int, count: int, table: seq<(int, int)>,
                         existing: set<int>, now: int) returns (ids: seq<int>)
    requires db.Valid()
    requires existing <= HeldCodes(db.catalogue, db.userAchievements, user)
    modifies db
    ensures db.Valid()
    ensures AppendedFor(old(db.userAchievements), db.userAchievements, user, now)
    ensures IdsOfNewRows(ids, old(db.userAchievements), db.userAchievements)
    ensures HeldCodes(db.catalogue, db.userAchievements, user)
         == HeldCodes(db.catalogue, old(db.userAchievements), user) + MetCodes(table, count) * Codes(db.catalogue)
    ensures |UserRows(db.userAchievements, user)| == |UserRows(old(db.userAchievements), user)| + |ids|
    ensures ids == ThresholdIds(db.catalogue, table, count, HeldCodes(db.catalogue, old(db.userAchievements), user))
  {
    ids := [];
    var i := 0;
    ghost var start := db.userAchievements;
    ghost var heldAtStart := HeldCodes(db.catalogue, start, user);
    assert MetCodes(table[..0], count) == {};
    assert heldAtStart + {} * Codes(db.catalogue) == heldAtStart;
    while i < |table|
      invariant 0 <= i <= |table|
      invariant db.Valid()
      invariant AppendedFor(start, db.userAchievements, user, now)
      invariant IdsOfNewRows(ids, start, db.userAchievements)
      invariant HeldCodes(db.catalogue, db.userAchievements, user)
             == heldAtStart + MetCodes(table[..i], count) * Codes(db.catalogue)
      invariant |UserRows(db.userAchievements, user)| == |UserRows(start, user)| + |ids|
      invariant ids == ThresholdIds(db.catalogue, table[..i], count, heldAtStart)
    {
      var (code, threshold) := table[i];
      ghost var heldBefore, idsBefore := HeldCodes(db.catalogue, db.userAchievements, user), ids;
      ids := AwardAndCollect(db, user, code, count >= threshold, existing, ids, now, start);
      ThresholdLoopStep(db.catalogue, table, i, count, heldAtStart, heldBefore,
                        HeldCodes(db.catalogue, db.userAchievements, user), idsBefore, ids);
      i := i + 1;
    }
    assert table[..i] == table;
  }

  /**
   * Where the meta rules stand: the table has grown from `start` by rows of
   * `user` earned `now` whose ids are `ids`, and `codes` and `count` are the
   * user's codes and number of achievements.
   */
  ghost predicate MetaState(db: AchievementStore, user: int, now: int, start: seq<UserAchievement>,
                            ids: seq<int>, codes: set<int>, count: int)
    reads db
  {
    db.Valid()
    && AppendedFor(start, db.userAchievements, user, now) && IdsOfNewRows(ids, start, db.userAchievements)
    && codes == HeldCodes(db.catalogue, db.userAchievements, user)
    && count == |UserRows(db.userAchievements, user)|
  }

  /**
   * One meta rule: when it is `due` and `codes` lacks `code`, the award is
   * attempted, and an awarded id is collected, its code added to `codes`
   * and `count` raised by one.
   */
  method AwardMetaStep(db: AchievementStore, user: int, code: int, due: bool, ids: seq<int>,
                       codes: set<int>, count: int, now: int, ghost start: seq<UserAchievement>)
    returns (ids': seq<int>, codes': set<int>, count': int)
    requires MetaState(db, user, now, start, ids, codes, count)
    modifies db
    ensures MetaState(db, user, now, start, ids', codes', count')
    ensures codes' == WithRule(codes, code, due, Codes(db.catalogue))
    ensures count' == |codes'|
    ensures ids' == ids + RuleId(db.catalogue, codes, code, due)
    ensures codes <= codes' <= codes + {code} && count <= count'
  {
    ids' := AwardAndCollect(db, user, code, due, codes, ids, now, start);
    codes', count' := codes, count;
    if |ids'| > |ids| {
      codes' := codes + {code};
      count' := count + 1;
    }
    HeldCodesCount(db.catalogue, db.userAchievements, user);
  }

  /**
   * The last meta rule: `completionist`, requested by the corrected rule
   * from the user's `codes` and `count` after the other two.
   */
  method AwardCompletionist(db: AchievementStore, user: int, ids: seq<int>, codes: set<int>, count: int,
                            now: int, ghost start: seq<UserAchievement>)
    returns (ids': seq<int>)
    requires MetaState(db, user, now, start, ids, codes, count)
    modifies db
    ensures MetaState(db, user, now, start, ids', HeldCodes(db.catalogue, db.userAchievements, user),
                      |UserRows(db.userAchievements, user)|)
    ensures HeldCodes(db.catalogue, db.userAchievements, user)
         == WithRule(codes, CompletionistCode, CompletionistDue(count, |db.catalogue|), Codes(db.catalogue))
    ensures ids' == ids + RuleId(db.catalogue, codes, CompletionistCode, CompletionistDue(count, |db.catalogue|))
    ensures CompletionistCode in Codes(db.catalogue) && AllOthersIn(db.catalogue, HeldCodes(db.catalogue, db.userAchievements, user))
         ==> CompletionistCode in HeldCodes(db.catalogue, db.userAchievements, user)
  {
    var total := |db.catalogue|;
    if CompletionistCode in Codes(db.catalogue) && CompletionistCode !in codes {
      CompletionistDueIffAllOthersHeld(db.catalogue, db.userAchievements, user);
    }
    var codesAfter, countAfter;
    ids', codesAfter, countAfter := AwardMetaStep(db, user, CompletionistCode, CompletionistDue(count, total),
                                                  ids, codes, count, now, start);
    if AllOthersIn(db.catalogue, codesAfter) {
      AllOthersInWithout(db.catalogue, codesAfter, codes);
    }
  }

  /**
   * The codes a user holds after the meta rules, from the codes `held`
   * before them. Each rule compares the user's number of achievements,
   * which is the number of codes held at that point (`HeldCodesCount`):
   * `first_any` once it is at least one, `collector` once it is at least
   * five, and `completionist` by the corrected rule; a rule adds its code
   * when the catalogue has it.
   */
  function MetaOutcome(catalogue: seq<Achievement>, held: set<int>): (r: set<int>)
    ensures held <= r <= held + {FirstAnyCode, CollectorCode, CompletionistCode}
    ensures FirstAnyCode in r <==> FirstAnyCode in held || (held != {} && FirstAnyCode in Codes(catalogue))
  {
    var codes := Codes(catalogue);
    var afterFirst := WithRule(held, FirstAnyCode, |held| >= 1, codes);
    var afterCollector := WithRule(afterFirst, CollectorCode, |afterFirst| >= 5, codes);
    WithRule(afterCollector, CompletionistCode, CompletionistDue(|afterCollector|, |catalogue|), codes)
  }

  /** One meta rule: `code` is added to `held` when the rule is `due` and the catalogue has the code. */
  function WithRule(held: set<int>, code: int, due: bool, catalogueCodes: set<int>): (r: set<int>)
    ensures forall x :: x in r <==> x in held || (x == code && due && code in catalogueCodes)
    ensures |r| == |held| + (if due && code in catalogueCodes && code !in held then 1 else 0)
  {
    if due && code in catalogueCodes && code !in held then held + {code} else held
  }

  /** The id one meta rule returns: that of `code` when the rule is `due` and `held` lacks the code. */
  function RuleId(catalogue: seq<Achievement>, held: set<int>, code: int, due: bool): seq<int>
  {
    if due && code !in held then NewId(catalogue, code) else []
  }

  /** The ids the meta rules return, in rule order, from the codes `held` before them. */
  function MetaIds(catalogue: seq<Achievement>, held: set<int>): (r: seq<int>)
    ensures |r| <= 3
  {
    var codes := Codes(catalogue);
    var afterFirst := WithRule(held, FirstAnyCode, |held| >= 1, codes);
    var afterCollector := WithRule(afterFirst, CollectorCode, |afterFirst| >= 5, codes);
    RuleId(catalogue, held, FirstAnyCode, |held| >= 1)
      + RuleId(catalogue, afterFirst, CollectorCode, |afterFirst| >= 5)
      + RuleId(catalogue, afterCollector, CompletionistCode, CompletionistDue(|afterCollector|, |catalogue|))
  }

  /**
   * `collector` is held after the meta rules exactly when it was held
   * before, or the catalogue has it and the user holds five achievements,
   * or four and is awarded `first_any` by the rule before.
   */
  lemma CollectorOutcome(catalogue: seq<Achievement>, held: set<int>)
    ensures CollectorCode in MetaOutcome(catalogue, held)
        <==> CollectorCode in held
             || (CollectorCode in Codes(catalogue)
                 && (|held| >= 5 || (|held| == 4 && FirstAnyCode in Codes(catalogue) && FirstAnyCode !in held)))
  {
  }

  /**
   * For codes of the catalogue, `completionist` is held after the meta
   * rules exactly when it was held before, or the catalogue has it and the
   * user then holds every other achievement.
   */
  lemma CompletionistOutcome(catalogue: seq<Achievement>, held: set<int>)
    requires CatalogueValid(catalogue) && held <= Codes(catalogue)
    ensures CompletionistCode in MetaOutcome(catalogue, held)
        <==> CompletionistCode in held
             || (CompletionistCode in Codes(catalogue) && AllOthersIn(catalogue, MetaOutcome(catalogue, held)))
  {
    var codes := Codes(catalogue);
    var afterFirst := WithRule(held, FirstAnyCode, |held| >= 1, codes);
    var afterCollector := WithRule(afterFirst, CollectorCode, |afterFirst| >= 5, codes);
    if CompletionistCode !in held && CompletionistCode in codes {
      CompletionistDueIffAllOthersIn(catalogue, afterCollector);
      if AllOthersIn(catalogue, MetaOutcome(catalogue, held)) {
        AllOthersInWithout(catalogue, MetaOutcome(catalogue, held), afterCollector);
      }
    }
  }

  /**
   * The three meta rules applied one after another, each comparing the
   * number of codes the step before left, give `MetaOutcome`.
   */
  lemma MetaOutcomeSteps(catalogue: seq<Achievement>, held: set<int>, afterFirst: set<int>,
                         afterCollector: set<int>, afterAll: set<int>, count: int, firstCount: int, collectorCount: int,
                         idsFirst: seq<int>, idsCollector: seq<int>, idsAll: seq<int>)
    requires count == |held| && firstCount == |afterFirst| && collectorCount == |afterCollector|
    requires afterFirst == WithRule(held, FirstAnyCode, count >= 1, Codes(catalogue))
    requires afterCollector == WithRule(afterFirst, CollectorCode, firstCount >= 5, Codes(catalogue))
    requires afterAll == WithRule(afterCollector, CompletionistCode, CompletionistDue(collectorCount, |catalogue|),
                                  Codes(catalogue))
    requires idsFirst == [] + RuleId(catalogue, held, FirstAnyCode, count >= 1)
    requires idsCollector == idsFirst + RuleId(catalogue, afterFirst, CollectorCode, firstCount >= 5)
    requires idsAll
          == idsCollector + RuleId(catalogue, afterCollector, CompletionistCode, CompletionistDue(collectorCount, |catalogue|))
    ensures afterAll == MetaOutcome(catalogue, held)
    ensures idsAll == MetaIds(catalogue, held)
  {
  }

  /** The meta rules return the id of a catalogue row exactly when they add its code. */
  lemma MetaIdsAwardNew(catalogue: seq<Achievement>, held: set<int>, a: Achievement)
    requires CatalogueValid(catalogue) && a in catalogue
    ensures a.id in MetaIds(catalogue, held) <==> a.code in MetaOutcome(catalogue, held) && a.code !in held
  {
    NewIdOf(catalogue, FirstAnyCode, a);
    NewIdOf(catalogue, CollectorCode, a);
    NewIdOf(catalogue, CompletionistCode, a);
  }

  /** The one-way promises of the meta rules, as `AwardMeta` states them. */
  lemma MetaOutcomePromises(catalogue: seq<Achievement>, held: set<int>)
    requires CatalogueValid(catalogue) && held <= Codes(catalogue)
    ensures CollectorCode in Codes(catalogue) && |held| >= 5 ==> CollectorCode in MetaOutcome(catalogue, held)
    ensures CompletionistCode in Codes(catalogue) && AllOthersIn(catalogue, MetaOutcome(catalogue, held))
         ==> CompletionistCode in MetaOutcome(catalogue, held)
  {
    CollectorOutcome(catalogue, held);
    CompletionistOutcome(catalogue, held);
  }

  /**
   * The meta rules, in order: `first_any` for a user with at least one
   * achievement, `collector` for one with at least five, counting a
   * `first_any` just awarded, and `completionist` by the corrected rule.
   * `existing` is the user's current set of codes.
   */
  method AwardMeta(db: AchievementStore, user: int, existing: set<int>, now: int) returns (ids: seq<int>)
    requires db.Valid()
    requires existing == HeldCodes(db.catalogue, db.userAchievements, user)
    modifies db
    ensures db.Valid()
    ensures AppendedFor(old(db.userAchievements), db.userAchievements, user, now)
    ensures IdsOfNewRows(ids, old(db.userAchievements), db.userAchievements)
    ensures HeldCodes(db.catalogue, db.userAchievements, user) == MetaOutcome(db.catalogue, existing)
    ensures ids == MetaIds(db.catalogue, existing)
    ensures existing <= HeldCodes(db.catalogue, db.userAchievements, user)
         <= existing + {FirstAnyCode, CollectorCode, CompletionistCode}
    ensures FirstAnyCode in Codes(db.catalogue) && existing != {} ==>
      FirstAnyCode in HeldCodes(db.catalogue, db.userAchievements, user)
    ensures CollectorCode in Codes(db.catalogue) && |UserRows(old(db.userAchievements), user)| >= 5 ==>
      CollectorCode in HeldCodes(db.catalogue, db.userAchievements, user)
    ensures CompletionistCode in Codes(db.catalogue) && AllOthersIn(db.catalogue, HeldCodes(db.catalogue, db.userAchievements, user))
         ==> CompletionistCode in HeldCodes(db.catalogue, db.userAchievements, user)
  {
    ghost var start := db.userAchievements;
    var codes := existing;
    var count := |UserRows(db.userAchievements, user)|;
    assert start[..|start|] == start;
    ids := [];
    assert MetaState(db, user, now, start, ids, codes, count);
    HeldCodesCount(db.catalogue, db.userAchievements, user);

    ghost var startCount := count;
    ids, codes, count := AwardMetaStep(db, user, FirstAnyCode, count >= 1, ids, codes, count, now, start);
    ghost var afterFirst, firstCount, idsFirst := codes, count, ids;
    ids, codes, count := AwardMetaStep(db, user, CollectorCode, count >= 5, ids, codes, count, now, start);
    ghost var afterCollector, collectorCount, idsCollector := codes, count, ids;
    ids := AwardCompletionist(db, user, ids, codes, count, now, start);
    MetaOutcomeSteps(db.catalogue, existing, afterFirst, afterCollector, HeldCodes(db.catalogue, db.userAchievements, user),
                     startCount, firstCount, collectorCount, idsFirst, idsCollector, ids);
    MetaOutcomePromises(db.catalogue, existing);
  }

  /** Two batches of appended rows make one, with their ids in order. */
  lemma AppendedCompose(first: seq<UserAchievement>, middle: seq<UserAchievement>, last: seq<UserAchievement>,
                        ids1: seq<int>, ids2: seq<int>, user: int, now: int)
    requires AppendedFor(first, middle, user, now) && IdsOfNewRows(ids1, first, middle)
    requires AppendedFor(middle, last, user, now) && IdsOfNewRows(ids2, middle, last)
    ensures AppendedFor(first, last, user, now) && IdsOfNewRows(ids1 + ids2, first, last)
  {
    assert last[..|first|] == middle[..|first|];
    forall k | 0 <= k < |ids1 + ids2| ensures (ids1 + ids2)[k] == last[|first| + k].achievementId {
      if k >= |ids1| {
        assert (ids1 + ids2)[k] == ids2[k - |ids1|];
      } else {
        assert last[|first| + k] == middle[|first| + k];
      }
    }
  }

  /** No ids means no new rows. */
  lemma NothingAppended(before: seq<UserAchievement>, after: seq<UserAchievement>, user: int, now: int)
    requires AppendedFor(before, after, user, now) && IdsOfNewRows([], before, after)
    ensures after == before
  {
    assert after == after[..|before|];
  }

  /**
   * The codes after both threshold loops and the meta rules: every met code
   * the catalogue has, the codes held before, and at most the meta codes
   * besides.
   */
  lemma ThresholdCodesChain(heldAtStart: set<int>, afterMessages: set<int>, afterThresholds: set<int>,
                            afterAll: set<int>, metMessages: set<int>, metErrors: set<int>, catalogueCodes: set<int>)
    requires afterMessages == heldAtStart + metMessages * catalogueCodes
    requires afterThresholds == afterMessages + metErrors * catalogueCodes
    requires afterThresholds <= afterAll <= afterThresholds + {FirstAnyCode, CollectorCode, CompletionistCode}
    ensures afterThresholds == heldAtStart + (metMessages + metErrors) * catalogueCodes
    ensures (metMessages + metErrors) * catalogueCodes <= afterAll
    ensures afterAll <= heldAtStart + (metMessages + metErrors) + {FirstAnyCode, CollectorCode, CompletionistCode}
    ensures afterAll - {FirstAnyCode, CollectorCode, CompletionistCode} != {} ==> afterThresholds != {}
  {
  }

  /**
   * `check_and_award_on_message`: the message thresholds, then the error
   * thresholds, then the meta rules. The returned ids are exactly those of
   * the rows inserted, in insertion order; every threshold code the counts
   * reach is held afterwards when the catalogue has it, and nothing outside
   * those codes and the meta codes is awarded.
   */
  method CheckAndAwardOnMessage(db: AchievementStore, user: int, now: int) returns (awarded: seq<int>)
    requires db.Valid()
    modifies db
    ensures db.Valid()
    ensures AppendedFor(old(db.userAchievements), db.userAchievements, user, now)
    ensures IdsOfNewRows(awarded, old(db.userAchievements), db.userAchievements)
    ensures var met := MetCodes(MessageThresholds, MessagesCount(db.messages, user))
                     + MetCodes(ErrorThresholds, ErrorsCount(db.errors, db.messages, user));
      met * Codes(db.catalogue) <= HeldCodes(db.catalogue, db.userAchievements, user)
      && HeldCodes(db.catalogue, db.userAchievements, user)
         <= HeldCodes(db.catalogue, old(db.userAchievements), user) + met
            + {FirstAnyCode, CollectorCode, CompletionistCode}
    ensures var met := MetCodes(MessageThresholds, MessagesCount(db.messages, user))
                     + MetCodes(ErrorThresholds, ErrorsCount(db.errors, db.messages, user));
      HeldCodes(db.catalogue, db.userAchievements, user)
      == MetaOutcome(db.catalogue, HeldCodes(db.catalogue, old(db.userAchievements), user) + met * Codes(db.catalogue))
    ensures var heldBefore := HeldCodes(db.catalogue, old(db.userAchievements), user);
      var messagesCount := MessagesCount(db.messages, user);
      var errorsCount := ErrorsCount(db.errors, db.messages, user);
      var afterMessages := heldBefore + MetCodes(MessageThresholds, messagesCount) * Codes(db.catalogue);
      awarded == ThresholdIds(db.catalogue, MessageThresholds, messagesCount, heldBefore)
                 + ThresholdIds(db.catalogue, ErrorThresholds, errorsCount, afterMessages)
                 + MetaIds(db.catalogue, afterMessages + MetCodes(ErrorThresholds, errorsCount) * Codes(db.catalogue))
    ensures FirstAnyCode in Codes(db.catalogue)
         && HeldCodes(db.catalogue, db.userAchievements, user) - {FirstAnyCode, CollectorCode, CompletionistCode} != {}
         ==> FirstAnyCode in HeldCodes(db.catalogue, db.userAchievements, user)
    ensures CollectorCode in Codes(db.catalogue) && |UserRows(old(db.userAchievements), user)| >= 5 ==>
      CollectorCode in HeldCodes(db.catalogue, db.userAchievements, user)
    ensures CompletionistCode in Codes(db.catalogue) && AllOthersIn(db.catalogue, HeldCodes(db.catalogue, db.userAchievements, user))
         ==> CompletionistCode in HeldCodes(db.catalogue, db.userAchievements, user)
  {
    var messagesCount := MessagesCount(db.messages, user);
    var errorsCount := ErrorsCount(db.errors, db.messages, user);
    var existing := HeldCodes(db.catalogue, db.userAchievements, user);
    ghost var start := db.userAchievements;
    ghost var heldAtStart := existing;

    var fromMessages := AwardThresholds(db, user, messagesCount, MessageThresholds, existing, now);
    ghost var afterMessages := db.userAchievements;
    ghost var heldAfterMessages := HeldCodes(db.catalogue, afterMessages, user);
    var fromErrors := AwardThresholds(db, user, errorsCount, ErrorThresholds, existing, now);
    AppendedCompose(start, afterMessages, db.userAchievements, fromMessages, fromErrors, user, now);
    awarded := fromMessages + fromErrors;

    if |awarded| > 0 {
      existing := HeldCodes(db.catalogue, db.userAchievements, user);
    } else {
      NothingAppended(start, db.userAchievements, user, now);
    }
    ghost var afterThresholds := db.userAchievements;
    var fromMeta := AwardMeta(db, user, existing, now);
    AppendedCompose(start, afterThresholds, db.userAchievements, awarded, fromMeta, user, now);
    awarded := awarded + fromMeta;
    ThresholdCodesChain(heldAtStart, heldAfterMessages, existing, HeldCodes(db.catalogue, db.userAchievements, user),
                        MetCodes(MessageThresholds, messagesCount), MetCodes(ErrorThresholds, errorsCount),
                        Codes(db.catalogue));
  }
}
