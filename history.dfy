/**
 * The chat-history endpoint (services/backend/src/routers/history.py): the
 * user's last messages, fetched newest first, are put back in chronological
 * order and each becomes a user turn for its text and an assistant turn for
 * its answer.
 *
 * The backend's `ChatMessage` (services/backend/src/schemas/chat.py) has
 * the same two fields and the same role literal as the worker's, so the
 * model uses `Schemas.ChatMessage` for both. The two database reads are
 * parameters: each gives a value or raises `SQLAlchemyError` (`Err`).
 */
module History {
  import opened Common
  import opened Schemas

  /** The two nullable columns of `messages` the endpoint reads. */
  datatype StoredMessage = StoredMessage(textOriginal: Option<string>, answer: Option<string>)

  /** A `SQLAlchemyError` raised by a query. */
  datatype DbError = DbError(message: string)

  /** `limit: int = 18` */
  const DefaultLimit: int := 18

  const UserNotFound: HttpError := HttpError(404, "User not found")
  const DatabaseUnavailable: HttpError := HttpError(503, "Database not available.")

  /** Python truthiness of a nullable text column: present and non-empty. */
  predicate Truthy(s: Option<string>)
  {
    s.Some? && s.value != ""
  }

  /** The turns one message contributes: its text as the user, then its answer as the assistant. */
  function Turns(m: StoredMessage): (r: seq<ChatMessage>)
    ensures |r| <= 2
    ensures |r| == (if Truthy(m.textOriginal) then 1 else 0) + (if Truthy(m.answer) then 1 else 0)
    ensures Truthy(m.textOriginal) ==> r[0] == ChatMessage(User, m.textOriginal.value)
    ensures Truthy(m.answer) ==> r[|r| - 1] == ChatMessage(Assistant, m.answer.value)
    ensures forall t :: t in r ==> t.content != ""
  {
    (if Truthy(m.textOriginal) then [ChatMessage(User, m.textOriginal.value)] else [])
    + (if Truthy(m.answer) then [ChatMessage(Assistant, m.answer.value)] else [])
  }

  /** The turns of messages in order: what the endpoint's loop collects. */
  function TurnsOf(ms: seq<StoredMessage>): (r: seq<ChatMessage>)
    ensures |r| <= 2 * |ms|
    ensures forall t :: t in r ==> t.content != ""
  {
    if ms == [] then []
    else TurnsOf(ms[..|ms| - 1]) + Turns(ms[|ms| - 1])
  }

  /** The turns of two runs of messages are the turns of each, in order. */
  lemma {:induction false} TurnsOfAppend(xs: seq<StoredMessage>, ys: seq<StoredMessage>)
    ensures TurnsOf(xs + ys) == TurnsOf(xs) + TurnsOf(ys)
    decreases |ys|
  {
    if ys != [] {
      var init := ys[..|ys| - 1];
      var last := ys[|ys| - 1];
      assert (xs + ys)[..|xs + ys| - 1] == xs + init;
      assert (xs + ys)[|xs + ys| - 1] == last;
      assert TurnsOf(xs + ys) == TurnsOf(xs + init) + Turns(last);
      assert TurnsOf(ys) == TurnsOf(init) + Turns(last);
      TurnsOfAppend(xs, init);
    } else {
      assert xs + ys == xs;
    }
  }

  /**
   * Message order is kept: the turns of message `i` sit, contiguous,
   * between those of the messages before it and those after it.
   */
  lemma TurnsOfAt(ms: seq<StoredMessage>, i: int)
    requires 0 <= i < |ms|
    ensures TurnsOf(ms) == TurnsOf(ms[..i]) + Turns(ms[i]) + TurnsOf(ms[i + 1..])
  {
    var before, m, after := ms[..i], ms[i], ms[i + 1..];
    var upTo := ms[..i + 1];
    assert ms == upTo + after;
    TurnsOfAppend(upTo, after);
    assert upTo[..|upTo| - 1] == before && upTo[|upTo| - 1] == m;
    assert TurnsOf(upTo) == TurnsOf(before) + Turns(m);
  }

  /** A message with both a text and an answer gives its user turn directly followed by its assistant turn. */
  lemma UserTurnThenAnswer(ms: seq<StoredMessage>, i: int)
    requires 0 <= i < |ms| && Truthy(ms[i].textOriginal) && Truthy(ms[i].answer)
    ensures var k := |TurnsOf(ms[..i])|;
      k + 1 < |TurnsOf(ms)|
      && TurnsOf(ms)[k] == ChatMessage(User, ms[i].textOriginal.value)
      && TurnsOf(ms)[k + 1] == ChatMessage(Assistant, ms[i].answer.value)
  {
    TurnsOfAt(ms, i);
  }

  /** A message with neither a text nor an answer leaves no trace. */
  lemma EmptyMessageSkipped(xs: seq<StoredMessage>, m: StoredMessage, ys: seq<StoredMessage>)
    requires !Truthy(m.textOriginal) && !Truthy(m.answer)
    ensures TurnsOf(xs + [m] + ys) == TurnsOf(xs + ys)
  {
    TurnsOfAppend(xs + [m], ys);
    TurnsOfAppend(xs, ys);
    assert (xs + [m])[..|xs|] == xs;
  }

  /** `msgs.reverse()`: the list is reversed in place. */
  method ReverseInPlace(a: array<StoredMessage>)
    modifies a
    ensures a[..] == Reverse(old(a[..]))
  {
    ghost var s0 := a[..];
    var n := a.Length;
    var i := 0;
    while i < n / 2
      invariant 0 <= i <= n / 2
      invariant forall k :: 0 <= k < i ==> a[k] == s0[n - 1 - k]
      invariant forall k :: n - i <= k < n ==> a[k] == s0[n - 1 - k]
      invariant forall k :: i <= k < n - i ==> a[k] == s0[k]
    {
      a[i], a[n - 1 - i] := a[n - 1 - i], a[i];
      i := i + 1;
    }
    forall k | 0 <= k < n
      ensures a[k] == s0[n - 1 - k]
    {
      if i <= k < n - i {
        assert k == n - 1 - k;
      }
    }
    ReversedPointwise(a[..], s0);
  }

  /**
   * The body of the endpoint after the user lookup: reverse the fetched
   * list, then append each message's turns.
   */
  method TurnsNewestFirst(fetched: seq<StoredMessage>) returns (out: seq<ChatMessage>)
    ensures out == TurnsOf(Reverse(fetched))
  {
    var msgs := new StoredMessage[|fetched|](k requires 0 <= k < |fetched| => fetched[k]);
    assert msgs[..] == fetched;
    ReverseInPlace(msgs);
    out := AppendTurns(msgs);
  }

  /** The loop of the endpoint: each message's text as the user, then its answer as the assistant. */
  method AppendTurns(msgs: array<StoredMessage>) returns (out: seq<ChatMessage>)
    ensures out == TurnsOf(msgs[..])
  {
    out := [];
    var i := 0;
    while i < msgs.Length
      invariant 0 <= i <= msgs.Length
      invariant out == TurnsOf(msgs[..i])
    {
      var m := msgs[i];
      ghost var before := out;
      ghost var userPart := if Truthy(m.textOriginal) then [ChatMessage(User, m.textOriginal.value)] else [];
      ghost var answerPart := if Truthy(m.answer) then [ChatMessage(Assistant, m.answer.value)] else [];
      if m.textOriginal.Some? && m.textOriginal.value != "" {
        out := out + [ChatMessage(User, m.textOriginal.value)];
      }
      assert out == before + userPart;
      if m.answer.Some? && m.answer.value != "" {
        out := out + [ChatMessage(Assistant, m.answer.value)];
      }
      assert out == before + userPart + answerPart;
      assert before + userPart + answerPart == before + Turns(m);
      TurnsOfPrefix(msgs[..], i);
      i := i + 1;
    }
    assert msgs[..i] == msgs[..];
  }

  /** The turns of the first `i + 1` messages extend those of the first `i` by message `i`'s. */
  lemma TurnsOfPrefix(ms: seq<StoredMessage>, i: nat)
    requires i < |ms|
    ensures TurnsOf(ms[..i + 1]) == TurnsOf(ms[..i]) + Turns(ms[i])
  {
    assert ms[..i + 1][..i] == ms[..i] && ms[..i + 1][i] == ms[i];
  }

  /**
   * `get_chat_history`: 404 for an unknown user, 503 when either query
   * raises, otherwise the turns of the fetched messages in chronological
   * order. `lookupUser` is `get_user_by_username`, giving the user's id, and
   * `lastMessages(id, limit)` is `get_last_messages_by_user_id`.
   */
  method GetChatHistory(username: string, limit: int,
                        lookupUser: string -> Result<Option<int>, DbError>,
                        lastMessages: (int, int) -> Result<seq<StoredMessage>, DbError>)
    returns (r: Result<seq<ChatMessage>, HttpError>)
    ensures lookupUser(username).Err? ==> r == Err(DatabaseUnavailable)
    ensures lookupUser(username) == Ok(None) ==> r == Err(UserNotFound)
    ensures lookupUser(username).Ok? && lookupUser(username).value.Some? ==>
      var fetched := lastMessages(lookupUser(username).value.value, limit);
      (fetched.Err? ==> r == Err(DatabaseUnavailable))
      && (fetched.Ok? ==> r == Ok(TurnsOf(Reverse(fetched.value))))
  {
    var user := lookupUser(username);
    if user.Err? {
      return Err(DatabaseUnavailable);
    }
    if user.value.None? {
      return Err(UserNotFound);
    }
    var fetched := lastMessages(user.value.value, limit);
    if fetched.Err? {
      return Err(DatabaseUnavailable);
    }
    var out := TurnsNewestFirst(fetched.value);
    r := Ok(out);
  }
}
