/**
 * The web backend's login and settings state (backend/main.py and its copy
 * in services/web/backend/main.py). Three in-memory tables hold the state:
 * pending login codes by username, issued tokens (token to username), and
 * saved levels by username. Clients authenticate with an
 * `Authorization: Bearer <token>` header (section 2.1 of RFC 6750, scheme
 * name matched case-insensitively).
 *
 * The clock (`now`, in seconds), the random draws and the calls to other
 * services are parameters. Request-body validation that FastAPI performs
 * before a handler runs is modelled as a 422 error ahead of the handler.
 */
module Backend {
  import opened Common
  import opened Text
  import opened Json

  // ---------------------------------------------------------------------
  // Constants and small helpers

  /** `CODE_TTL_MIN` at its default; the environment variable is not modelled. */
  const CodeTtlMin: int := 10

  /**
   * The status FastAPI answers with when a request body fails validation.
   * Only the status is modelled: FastAPI's detail for it is a list of
   * per-field errors, not a single message.
   */
  const ValidationFailed: HttpError := HttpError(422, "Unprocessable Entity")

  const MissingHeader: HttpError := HttpError(401, "Missing Authorization header")
  const BadHeaderFormat: HttpError := HttpError(401, "Invalid Authorization header format")
  const UnknownToken: HttpError := HttpError(401, "Invalid or expired token")
  const EmptyUsername: HttpError := HttpError(400, "tg_username is empty")
  const NoPendingCode: HttpError := HttpError(401, "No pending code for this user")
  const CodeExpired: HttpError := HttpError(401, "Code expired")
  const WrongCode: HttpError := HttpError(401, "Invalid code")
  const UserNotFound: HttpError := HttpError(404, "Not Found")

  /** `payload.tg_username.strip().lstrip("@")` */
  function NormalizeUsername(u: string): (r: string)
    ensures r == [] || (r[0] != '@' && !IsSpace(r[|r| - 1]))
  {
    LStripChar(Strip(u), '@')
  }

  /** Any run of leading "@" after the whitespace is dropped, so "@@bob" and " bob " name the same user. */
  lemma NormalizeUsernameDropsAts(ats: string, name: string)
    requires forall i :: 0 <= i < |ats| ==> ats[i] == '@'
    requires name != [] && name[0] != '@' && !IsSpace(name[0]) && !IsSpace(name[|name| - 1])
    ensures NormalizeUsername(ats + name) == name
  {
    var s := ats + name;
    assert s[0] == (if ats == [] then name[0] else '@');
    assert s[|s| - 1] == name[|name| - 1];
    StripUnchanged(s);
    LStripCharRun(ats, name, '@');
  }

  lemma {:induction false} LStripCharRun(run: string, rest: string, c: char)
    requires forall i :: 0 <= i < |run| ==> run[i] == c
    requires rest == [] || rest[0] != c
    ensures LStripChar(run + rest, c) == rest
    decreases |run|
  {
    if run == [] {
      assert run + rest == rest;
    } else {
      assert (run + rest)[1..] == run[1..] + rest;
      LStripCharRun(run[1..], rest, c);
    }
  }

  /**
   * Normalising is not idempotent: whitespace after the "@" survives, so
   * "@ bob" becomes " bob", which normalises again to "bob".
   */
  lemma NormalizeUsernameKeepsInnerSpace(name: string)
    requires name != [] && name[0] != '@' && !IsSpace(name[0]) && !IsSpace(name[|name| - 1])
    ensures NormalizeUsername("@ " + name) == " " + name
    ensures NormalizeUsername(" " + name) == name
  {
    var s := "@ " + name;
    assert s[0] == '@' && s[|s| - 1] == name[|name| - 1];
    StripUnchanged(s);
    assert s == "@" + (" " + name);
    LStripCharRun("@", " " + name, '@');
    StripPadded(" ", name, "");
    assert " " + name + "" == " " + name;
    LStripCharRun("", name, '@');
    assert "" + name == name;
  }

  /** `f"{random.randint(0, 99999):05d}"` for the drawn number `n`. */
  function MakeCode5(n: int): (r: string)
    requires 0 <= n <= 99999
    ensures |r| == 5 && IsDigits(r) && DigitsValue(r) == n
  {
    DecimalLength(n, 5);
    ZeroPadded(n, 5)
  }

  /** A login code: five decimal digits. */
  predicate IsCode5(c: string)
  {
    |c| == 5 && IsDigits(c)
  }

  /** Distinct draws give distinct codes. */
  lemma MakeCode5Injective(a: int, b: int)
    requires 0 <= a <= 99999 && 0 <= b <= 99999
    ensures MakeCode5(a) == MakeCode5(b) ==> a == b
  {
  }

  /** `f"mock-{username}-{random.randint(100000, 999999)}"` for the drawn number `n`. */
  function MakeToken(username: string, n: int): (r: string)
    requires 100000 <= n <= 999999
    ensures |r| == |username| + 12
    ensures TokenOwner(r) == Some(username)
  {
    DecimalLength(n, 6);
    DecimalLengthAbove(n, 5);
    var d := Decimal(n);
    var r := "mock-" + username + "-" + d;
    assert r[..5] == "mock-" && r[5..|r| - 7] == username && r[|r| - 7] == '-' && r[|r| - 6..] == d;
    r
  }

  /** The username a well-formed token was issued for: what sits between "mock-" and the last 7 characters. */
  function TokenOwner(t: string): Option<string>
  {
    if |t| >= 12 && t[..5] == "mock-" && t[|t| - 7] == '-' && IsDigits(t[|t| - 6..])
    then Some(t[5..|t| - 7])
    else None
  }

  /** A token determines both its user and its number. */
  lemma MakeTokenInjective(u1: string, n1: int, u2: string, n2: int)
    requires 100000 <= n1 <= 999999 && 100000 <= n2 <= 999999
    requires MakeToken(u1, n1) == MakeToken(u2, n2)
    ensures u1 == u2 && n1 == n2
  {
    var t := MakeToken(u1, n1);
    assert u1 == TokenOwner(t).value == u2;
    DecimalLength(n1, 6);
    DecimalLengthAbove(n1, 5);
    assert t[|t| - 6..] == Decimal(n1);
    DecimalLength(n2, 6);
    DecimalLengthAbove(n2, 5);
    assert t[|t| - 6..] == Decimal(n2);
    DecimalRoundTrip(n1);
    DecimalRoundTrip(n2);
  }

  // ---------------------------------------------------------------------
  // _auth_username_from_header

  /**
   * `_auth_username_from_header`: 401 for a missing or empty header, for
   * anything but two whitespace-separated parts whose first is "bearer" in
   * any case, and for a token that names no user.
   */
  function AuthUsernameFromHeader(authorization: Option<string>, tokens: map<string, string>)
    : (r: Result<string, HttpError>)
    ensures r.Err? ==> r.error.status == 401
    ensures authorization.None? || authorization.value == "" ==> r == Err(MissingHeader)
    ensures r.Ok? ==> r.value != "" && exists t :: t in tokens && tokens[t] == r.value
    ensures authorization.Some? && authorization.value != "" ==>
      var parts := Split(authorization.value);
      (|parts| != 2 || Lower(parts[0]) != "bearer" ==> r == Err(BadHeaderFormat))
      && (|parts| == 2 && Lower(parts[0]) == "bearer" ==>
            (parts[1] in tokens && tokens[parts[1]] != "" ==> r == Ok(tokens[parts[1]]))
            && (parts[1] !in tokens || tokens[parts[1]] == "" ==> r == Err(UnknownToken)))
  {
    if authorization.None? || authorization.value == "" then Err(MissingHeader)
    else
      var parts := Split(authorization.value);
      if |parts| != 2 || Lower(parts[0]) != "bearer" then Err(BadHeaderFormat)
      else
        var token := parts[1];
        if token !in tokens || tokens[token] == "" then Err(UnknownToken)
        else Ok(tokens[token])
  }

  /**
   * A header of the scheme, in any letter case, a single space and a known
   * token authenticates as the token's user.
   */
  lemma BearerHeaderAccepted(scheme: string, token: string, tokens: map<string, string>)
    requires IsWord(scheme) && Lower(scheme) == "bearer"
    requires IsWord(token) && token in tokens && tokens[token] != ""
    ensures AuthUsernameFromHeader(Some(scheme + " " + token), tokens) == Ok(tokens[token])
  {
    TwoWordSplit(scheme, token);
  }

  /** Two words joined by one space split back into those two words. */
  lemma TwoWordSplit(a: string, b: string)
    requires IsWord(a) && IsWord(b)
    ensures Split(a + " " + b) == [a, b]
  {
    assert JoinSpace([a, b]) == a + " " + b by {
      assert [a, b][1..] == [b];
    }
    SplitJoinSpace([a, b]);
  }

  /** A two-part header whose scheme is not "bearer" in any case is malformed, whatever its token. */
  lemma OtherSchemeRejected(scheme: string, token: string, tokens: map<string, string>)
    requires IsWord(scheme) && Lower(scheme) != "bearer" && IsWord(token)
    ensures AuthUsernameFromHeader(Some(scheme + " " + token), tokens) == Err(BadHeaderFormat)
  {
    TwoWordSplit(scheme, token);
  }

  /** A bearer header with a token no user holds is rejected as an invalid or expired token. */
  lemma UnknownTokenRejected(scheme: string, token: string, tokens: map<string, string>)
    requires IsWord(scheme) && Lower(scheme) == "bearer" && IsWord(token)
    requires token !in tokens || tokens[token] == ""
    ensures AuthUsernameFromHeader(Some(scheme + " " + token), tokens) == Err(UnknownToken)
  {
    TwoWordSplit(scheme, token);
  }

  /** Anything other than exactly two parts is a malformed header, even with a valid token in it. */
  lemma ThreePartHeaderRejected(a: string, b: string, c: string, tokens: map<string, string>)
    requires IsWord(a) && IsWord(b) && IsWord(c)
    ensures AuthUsernameFromHeader(Some(a + " " + b + " " + c), tokens) == Err(BadHeaderFormat)
  {
    assert JoinSpace([a, b, c]) == a + " " + b + " " + c by {
      assert [a, b, c][1..] == [b, c];
      assert [b, c][1..] == [c];
      assert JoinSpace([c]) == c;
      assert JoinSpace([b, c]) == b + " " + c;
      assert JoinSpace([a, b, c]) == a + " " + (b + " " + c);
    }
    SplitJoinSpace([a, b, c]);
  }

  // ---------------------------------------------------------------------
  // The tables

  datatype PendingCode = PendingCode(code: string, expiresAt: int)

  /** What `verify_code` returns: the new token and the normalised username. */
  datatype Login = Login(token: string, username: string)

  /** What both settings endpoints return. */
  datatype SettingsOut = SettingsOut(username: string, level: string)

  /** The levels `SettingsIn` accepts on backend/main.py. */
  const SettingsLevels: set<string> := {"A1", "A2", "B1", "B2", "C1"}

  /** The levels `SettingsIn` accepts on services/web/backend/main.py: C2 as well. */
  const WebSettingsLevels: set<string> := {"A1", "A2", "B1", "B2", "C1", "C2"}

  /** The levels `CheckRequest` accepts on both backends. */
  const CheckLevels: set<string> := {"A1", "A2", "B1", "B2", "C1"}

  predicate PendingValid(pending: map<string, PendingCode>)
  {
    forall u :: u in pending ==> u != "" && IsCode5(pending[u].code)
  }

  predicate TokensValid(tokens: map<string, string>)
  {
    forall t :: t in tokens ==> tokens[t] != "" && TokenOwner(t) == Some(tokens[t])
  }

  lemma IssueTokenKeepsValid(tokens: map<string, string>, u: string, draw: int)
    requires TokensValid(tokens) && u != "" && 100000 <= draw <= 999999
    ensures TokensValid(tokens[MakeToken(u, draw) := u])
  {
  }

  lemma RemovePendingKeepsValid(pending: map<string, PendingCode>, u: string)
    requires PendingValid(pending)
    ensures PendingValid(pending - {u})
  {
  }

  /**
   * What redeeming a code does to the tables: the answer, then the pending
   * codes and tokens afterwards. A code is good once: success removes it.
   */
  function RedeemOutcome(pending: map<string, PendingCode>, tokens: map<string, string>,
                         u: string, code: string, now: int, draw: int)
    : (r: (Result<Login, HttpError>, map<string, PendingCode>, map<string, string>))
    requires 100000 <= draw <= 999999
    ensures r.0.Ok? <==> u in pending && now <= pending[u].expiresAt && code == pending[u].code
    ensures r.0.Err? ==> r.0.error.status == 401 && r.2 == tokens
    ensures r.0.Ok? ==> r.0.value.username == u && r.1 == pending - {u} && u !in r.1
    ensures r.0.Ok? ==> r.2 == tokens[r.0.value.token := u] && TokenOwner(r.0.value.token) == Some(u)
    ensures u in pending && now > pending[u].expiresAt ==> r.1 == pending - {u}
    ensures u in pending && now <= pending[u].expiresAt && code != pending[u].code ==> r.1 == pending
    ensures u !in pending ==> r.1 == pending
    ensures forall v :: v != u ==> (v in r.1 <==> v in pending) && (v in r.1 ==> r.1[v] == pending[v])
  {
    if u !in pending then (Err(NoPendingCode), pending, tokens)
    else if now > pending[u].expiresAt then (Err(CodeExpired), pending - {u}, tokens)
    else if code != pending[u].code then (Err(WrongCode), pending, tokens)
    else
      var token := MakeToken(u, draw);
      (Ok(Login(token, u)), pending - {u}, tokens[token := u])
  }

  /** The module-level dicts of one backend process. */
  class BackendState {
    /** `_pending_codes`: username -> {code, expires_at} */
    var pending: map<string, PendingCode>
    /** `_user_tokens`: token -> username */
    var tokens: map<string, string>
    /** `_user_levels`: username -> level */
    var levels: map<string, string>

    /**
     * Pending entries are keyed by non-empty names and hold five-digit
     * codes; every token names the user it was issued to.
     */
    predicate Valid()
      reads this
    {
      PendingValid(pending) && TokensValid(tokens)
    }

    constructor()
      ensures Valid()
      ensures pending == map[] && tokens == map[] && levels == map[]
    {
      pending := map[];
      tokens := map[];
      levels := map[];
    }

    /**
     * `request_code` (backend/main.py): 422 for a name outside 3..64
     * characters, 400 when nothing is left after normalising; otherwise a new
     * code, valid for `CodeTtlMin` minutes, replaces any pending one.
     */
    method RequestCode(tgUsername: string, draw: int, now: int) returns (r: Result<string, HttpError>)
      requires Valid() && 0 <= draw <= 99999
      modifies this
      ensures Valid()
      ensures tokens == old(tokens) && levels == old(levels)
      ensures !(3 <= |tgUsername| <= 64) ==> r == Err(ValidationFailed) && pending == old(pending)
      ensures 3 <= |tgUsername| <= 64 && NormalizeUsername(tgUsername) == "" ==>
        r == Err(EmptyUsername) && pending == old(pending)
      ensures 3 <= |tgUsername| <= 64 && NormalizeUsername(tgUsername) != "" ==>
        r == Ok("sent") &&
        pending == old(pending)[NormalizeUsername(tgUsername) := PendingCode(MakeCode5(draw), now + CodeTtlMin * 60)]
    {
      if !(3 <= |tgUsername| <= 64) {
        return Err(ValidationFailed);
      }
      var username := NormalizeUsername(tgUsername);
      if username == "" {
        return Err(EmptyUsername);
      }
      var code := MakeCode5(draw);
      pending := pending[username := PendingCode(code, now + CodeTtlMin * 60)];
      r := Ok("sent");
    }

    /**
     * `request_code` (services/web/backend/main.py): as above, but after
     * storing the code it asks the users service to deliver it; when that
     * call gives nothing back the answer is 404 and the code stays pending.
     */
    method RequestCodeWeb(tgUsername: string, draw: int, now: int, delivered: Option<seq<(string, Json)>>)
      returns (r: Result<string, HttpError>)
      requires Valid() && 0 <= draw <= 99999
      modifies this
      ensures Valid()
      ensures tokens == old(tokens) && levels == old(levels)
      ensures !(3 <= |tgUsername| <= 64) ==> r == Err(ValidationFailed) && pending == old(pending)
      ensures 3 <= |tgUsername| <= 64 && NormalizeUsername(tgUsername) == "" ==>
        r == Err(EmptyUsername) && pending == old(pending)
      ensures 3 <= |tgUsername| <= 64 && NormalizeUsername(tgUsername) != "" ==>
        r == (if delivered.None? then Err(UserNotFound) else Ok("sent")) &&
        pending == old(pending)[NormalizeUsername(tgUsername) := PendingCode(MakeCode5(draw), now + CodeTtlMin * 60)]
    {
      r := RequestCode(tgUsername, draw, now);
      if r.Ok? && delivered.None? {
        r := Err(UserNotFound);
      }
    }

    /**
     * `verify_code`: 422 unless the code has five characters; otherwise the
     * outcome of `Redeem` for the normalised username.
     */
    method VerifyCode(tgUsername: string, code: string, now: int, draw: int) returns (r: Result<Login, HttpError>)
      requires Valid() && 100000 <= draw <= 999999
      modifies this
      ensures Valid()
      ensures levels == old(levels)
      ensures |code| != 5 ==> r == Err(ValidationFailed) && unchanged(this)
      ensures |code| == 5 ==>
        RedeemOutcome(old(pending), old(tokens), NormalizeUsername(tgUsername), code, now, draw) == (r, pending, tokens)
    {
      if |code| != 5 {
        return Err(ValidationFailed);
      }
      r := Redeem(NormalizeUsername(tgUsername), code, now, draw);
    }

    /**
     * The body of `verify_code` after normalising: 401 without a pending
     * code; 401 and the entry removed once `now` is past its expiry; 401
     * and the entry kept for a wrong code. On success the token is recorded
     * for the user and the pending entry is consumed.
     */
    method Redeem(username: string, code: string, now: int, draw: int) returns (r: Result<Login, HttpError>)
      requires Valid() && 100000 <= draw <= 999999
      modifies this
      ensures Valid()
      ensures levels == old(levels)
      ensures RedeemOutcome(old(pending), old(tokens), username, code, now, draw) == (r, pending, tokens)
    {
      if username !in pending {
        return Err(NoPendingCode);
      }
      var rec := pending[username];
      if now > rec.expiresAt {
        var p := pending - {username};
        RemovePendingKeepsValid(pending, username);
        pending := p;
        assert Valid();
        return Err(CodeExpired);
      }
      if code != rec.code {
        return Err(WrongCode);
      }
      var token := MakeToken(username, draw);
      var t := tokens[token := username];
      var p := pending - {username};
      IssueTokenKeepsValid(tokens, username, draw);
      RemovePendingKeepsValid(pending, username);
      tokens, pending := t, p;
      assert Valid();
      r := Ok(Login(token, username));
    }

    /** `get_settings` (backend/main.py): the saved level, B1 when none was saved. */
    function GetSettings(authorization: Option<string>): (r: Result<SettingsOut, HttpError>)
      reads this
      ensures r.Err? <==> AuthUsernameFromHeader(authorization, tokens).Err?
      ensures r.Ok? ==> r.value.username == AuthUsernameFromHeader(authorization, tokens).value
      ensures r.Ok? && r.value.username in levels ==> r.value.level == levels[r.value.username]
      ensures r.Ok? && r.value.username !in levels ==> r.value.level == "B1"
    {
      match AuthUsernameFromHeader(authorization, tokens)
      case Err(e) => Err(e)
      case Ok(username) =>
        Ok(SettingsOut(username, if username in levels then levels[username] else "B1"))
    }

    /**
     * `set_settings`: 422 for a level outside `allowed` (SettingsLevels on
     * backend/main.py, WebSettingsLevels on the web copy), then the header
     * check; on success the level is saved for the user, so reading the
     * settings back gives it.
     */
    method SetSettings(authorization: Option<string>, level: string, allowed: set<string>)
      returns (r: Result<SettingsOut, HttpError>)
      requires Valid()
      modifies this
      ensures Valid()
      ensures pending == old(pending) && tokens == old(tokens)
      ensures level !in allowed ==> r == Err(ValidationFailed) && levels == old(levels)
      ensures level in allowed && AuthUsernameFromHeader(authorization, tokens).Err? ==>
        r == Err(AuthUsernameFromHeader(authorization, tokens).error) && levels == old(levels)
      ensures level in allowed && AuthUsernameFromHeader(authorization, tokens).Ok? ==>
        var u := AuthUsernameFromHeader(authorization, tokens).value;
        r == Ok(SettingsOut(u, level)) && levels == old(levels)[u := level]
        && GetSettings(authorization) == Ok(SettingsOut(u, level))
    {
      if level !in allowed {
        return Err(ValidationFailed);
      }
      match AuthUsernameFromHeader(authorization, tokens)
      case Err(e) =>
        r := Err(e);
      case Ok(username) =>
        levels := levels[username := level];
        r := Ok(SettingsOut(username, level));
    }

    /** The level `check` sends to the analyzer: the saved one when there is one, else the request's. */
    function CheckLevel(username: string, requested: string): (r: string)
      reads this
      ensures username in levels ==> r == levels[username]
      ensures username !in levels ==> r == requested
    {
      if username in levels then levels[username] else requested
    }
  }

  /**
   * A token just issued authenticates its user, provided the username is a
   * single word: `split()` cuts a name with whitespace inside into several
   * parts, so its token can never pass the header check.
   */
  lemma IssuedTokenAuthenticates(u: string, draw: int, tokens: map<string, string>)
    requires 100000 <= draw <= 999999 && u != ""
    requires MakeToken(u, draw) in tokens && tokens[MakeToken(u, draw)] == u
    ensures IsWord(u) ==> AuthUsernameFromHeader(Some("Bearer " + MakeToken(u, draw)), tokens) == Ok(u)
  {
    var t := MakeToken(u, draw);
    if IsWord(u) {
      TokenIsWord(u, draw);
      var scheme := "Bearer";
      assert Lower(scheme) == "bearer" by {
        var l := Lower(scheme);
        assert l[0] == 'b' && l[1] == 'e' && l[2] == 'a' && l[3] == 'r' && l[4] == 'e' && l[5] == 'r';
      }
      assert IsWord(scheme);
      BearerHeaderAccepted(scheme, t, tokens);
      assert scheme + " " + t == "Bearer " + t;
    }
  }

  /** A token issued for a name without whitespace has none either. */
  lemma TokenIsWord(u: string, draw: int)
    requires IsWord(u) && 100000 <= draw <= 999999
    ensures IsWord(MakeToken(u, draw))
  {
    var d := Decimal(draw);
    assert IsWord("mock-") && IsWord("-");
    DigitsWord(d);
    WordConcat("mock-", u);
    WordConcat("mock-" + u, "-");
    WordConcat("mock-" + u + "-", d);
  }

  /** A name with a space inside gets a token that no header can present. */
  lemma SpacedNameTokenRejected(a: string, b: string, draw: int, tokens: map<string, string>)
    requires IsWord(a) && IsWord(b) && 100000 <= draw <= 999999
    ensures AuthUsernameFromHeader(Some("Bearer " + MakeToken(a + " " + b, draw)), tokens).Err?
  {
    var d := Decimal(draw);
    var first := "mock-" + a;
    var last := b + "-" + d;
    assert IsWord("mock-") && IsWord("-");
    WordConcat("mock-", a);
    DigitsWord(d);
    WordConcat(b, "-");
    WordConcat(b + "-", d);
    var scheme := "Bearer";
    assert IsWord(scheme);
    assert "Bearer " + MakeToken(a + " " + b, draw) == scheme + " " + first + " " + last;
    ThreePartHeaderRejected(scheme, first, last, tokens);
  }

  // ---------------------------------------------------------------------
  // check: error items and response shaping

  /** `ErrorItem(type, subtype=None, original, corrected)` of both backends. */
  datatype ErrorItem = ErrorItem(kind: string, subtype: Option<string>, original: string, corrected: string)

  datatype CheckResponse = CheckResponse(correctedText: string, explanation: string, errors: seq<ErrorItem>)

  const InternalError: HttpError := HttpError(500, "Internal Server Error")

  /** `ErrorItem(**e)`: a dict with string `type`, `original`, `corrected` and an optional, nullable string `subtype`. */
  function ValidateErrorItem(e: Json): (r: Option<ErrorItem>)
    ensures r.Some? ==> e.JObj?
  {
    if !e.JObj? then None
    else
      var kind := Get(e.fields, "type");
      var sub := Get(e.fields, "subtype");
      var original := Get(e.fields, "original");
      var corrected := Get(e.fields, "corrected");
      if kind.Some? && kind.value.JStr? && original.Some? && original.value.JStr?
         && corrected.Some? && corrected.value.JStr?
         && (sub.None? || sub.value.JNull? || sub.value.JStr?)
      then
        Some(ErrorItem(kind.value.s, if sub.Some? && sub.value.JStr? then Some(sub.value.s) else None,
                       original.value.s, corrected.value.s))
      else None
  }

  function ErrorItemToJson(it: ErrorItem): Json
  {
    JObj([("type", JStr(it.kind)),
          ("subtype", match it.subtype case Some(s) => JStr(s) case None => JNull),
          ("original", JStr(it.original)),
          ("corrected", JStr(it.corrected))])
  }

  /** `ErrorItem(**item.model_dump()) == item` */
  lemma ErrorItemRoundTrip(it: ErrorItem)
    ensures ValidateErrorItem(ErrorItemToJson(it)) == Some(it)
  {
    var f := ErrorItemToJson(it).fields;
    GetAt(f, 0);
    GetAt(f, 1);
    GetAt(f, 2);
    GetAt(f, 3);
  }

  /** The items that construct, in their original order. */
  function WellFormedItems(es: seq<Json>): (r: seq<ErrorItem>)
    ensures |r| <= |es|
  {
    if es == [] then []
    else
      var rest := WellFormedItems(es[1..]);
      match ValidateErrorItem(es[0])
      case Some(it) => [it] + rest
      case None => rest
  }

  lemma {:induction false} WellFormedItemsAppend(xs: seq<Json>, ys: seq<Json>)
    ensures WellFormedItems(xs + ys) == WellFormedItems(xs) + WellFormedItems(ys)
    decreases |xs|
  {
    if xs != [] {
      assert (xs + ys)[1..] == xs[1..] + ys;
      WellFormedItemsAppend(xs[1..], ys);
    } else {
      assert xs + ys == ys;
    }
  }

  /** A malformed element is skipped without disturbing the others. */
  lemma MalformedItemSkipped(xs: seq<Json>, bad: Json, ys: seq<Json>)
    requires ValidateErrorItem(bad).None?
    ensures WellFormedItems(xs + [bad] + ys) == WellFormedItems(xs + ys)
  {
    WellFormedItemsAppend(xs + [bad], ys);
    WellFormedItemsAppend(xs, [bad]);
    WellFormedItemsAppend(xs, ys);
    var none := WellFormedItems([bad]);
    assert none == [] by {
      assert [bad][1..] == [];
    }
    var left := WellFormedItems(xs);
    assert WellFormedItems(xs + [bad]) == left + none;
    assert left + none == left;
  }

  /** Every serialised item comes back, in order. */
  lemma {:induction false} WellFormedItemsKeepsAll(items: seq<ErrorItem>)
    ensures WellFormedItems(seq(|items|, i requires 0 <= i < |items| => ErrorItemToJson(items[i]))) == items
    decreases |items|
  {
    if items != [] {
      var js := seq(|items|, i requires 0 <= i < |items| => ErrorItemToJson(items[i]));
      var tail := seq(|items| - 1, i requires 0 <= i < |items| - 1 => ErrorItemToJson(items[1..][i]));
      assert js[1..] == tail by {
        forall j | 0 <= j < |tail|
          ensures js[1..][j] == tail[j]
        {
          assert items[1..][j] == items[j + 1];
        }
      }
      WellFormedItemsKeepsAll(items[1..]);
      assert ValidateErrorItem(js[0]) == Some(items[0]) by {
        ErrorItemRoundTrip(items[0]);
      }
      assert WellFormedItems(js) == [items[0]] + WellFormedItems(js[1..]);
      assert [items[0]] + items[1..] == items;
    }
  }

  /**
   * The loop of `check`: tries to build an ErrorItem from each element and
   * keeps those that succeed.
   */
  method ParseErrorItems(es: seq<Json>) returns (parsed: seq<ErrorItem>)
    ensures parsed == WellFormedItems(es)
  {
    parsed := [];
    var i := |es|;
    while i > 0
      invariant 0 <= i <= |es|
      invariant parsed == WellFormedItems(es[i..])
      decreases i
    {
      i := i - 1;
      assert es[i..][1..] == es[i + 1..];
      match ValidateErrorItem(es[i])
      case Some(it) =>
        parsed := [it] + parsed;
      case None =>
    }
    assert es[0..] == es;
  }

  /**
   * `data.get("errors", [])` as the loop sees it: absent means none; a string
   * or an object iterates as strings, which never construct; null, a number
   * or a boolean cannot be iterated and the request fails.
   */
  function ErrorsField(data: seq<(string, Json)>): (r: Result<seq<Json>, HttpError>)
    ensures Get(data, "errors").None? ==> r == Ok([])
    ensures r.Err? ==> r.error == InternalError
  {
    match Get(data, "errors")
    case None => Ok([])
    case Some(JArr(items)) => Ok(items)
    case Some(JStr(_)) => Ok([])
    case Some(JObj(_)) => Ok([])
    case Some(_) => Err(InternalError)
  }

  /** `data.get(key, default)` where the response model requires a string. */
  function StrOr(data: seq<(string, Json)>, key: string, default: string): (r: Result<string, HttpError>)
    ensures Get(data, key).None? ==> r == Ok(default)
    ensures Get(data, key).Some? && Get(data, key).value.JStr? ==> r == Ok(Get(data, key).value.s)
  {
    match Get(data, key)
    case None => Ok(default)
    case Some(JStr(s)) => Ok(s)
    case Some(_) => Err(InternalError)
  }

  /** The response built from the analyzer's fields `data` for the submitted `text`. */
  function ShapedResponse(data: seq<(string, Json)>, text: string): (r: Result<CheckResponse, HttpError>)
    ensures r.Ok? <==>
      (Get(data, "errors").None? || Get(data, "errors").value.JArr? || Get(data, "errors").value.JStr?
       || Get(data, "errors").value.JObj?)
      && (Get(data, "corrected_text").None? || Get(data, "corrected_text").value.JStr?)
      && (Get(data, "explanation").None? || Get(data, "explanation").value.JStr?)
    ensures r.Err? ==> r.error == InternalError
    ensures r.Ok? ==>
      (r.value.correctedText == (if Get(data, "corrected_text").None? then text else Get(data, "corrected_text").value.s)
       && r.value.explanation == (if Get(data, "explanation").None? then "" else Get(data, "explanation").value.s)
       && r.value.errors == (if Get(data, "errors").Some? && Get(data, "errors").value.JArr?
                             then WellFormedItems(Get(data, "errors").value.items) else []))
  {
    var es := ErrorsField(data);
    var corrected := StrOr(data, "corrected_text", text);
    var explanation := StrOr(data, "explanation", "");
    if es.Err? || corrected.Err? || explanation.Err? then Err(InternalError)
    else Ok(CheckResponse(corrected.value, explanation.value, WellFormedItems(es.value)))
  }

  /**
   * The response both backends build from the analyzer's answer: the
   * corrected text defaults to the submitted text, the explanation to "",
   * and only the well-formed error items are kept.
   */
  method ShapeCheckResponse(data: seq<(string, Json)>, text: string) returns (r: Result<CheckResponse, HttpError>)
    ensures r == ShapedResponse(data, text)
    ensures ErrorsField(data).Err? ==> r == Err(InternalError)
    ensures ErrorsField(data).Ok? && StrOr(data, "corrected_text", text).Ok? && StrOr(data, "explanation", "").Ok? ==>
      r == Ok(CheckResponse(StrOr(data, "corrected_text", text).value, StrOr(data, "explanation", "").value,
                            WellFormedItems(ErrorsField(data).value)))
    ensures r.Err? ==> r.error == InternalError
  {
    var es := ErrorsField(data);
    if es.Err? {
      return Err(InternalError);
    }
    var parsed := ParseErrorItems(es.value);
    var corrected := StrOr(data, "corrected_text", text);
    var explanation := StrOr(data, "explanation", "");
    if corrected.Err? || explanation.Err? {
      return Err(InternalError);
    }
    r := Ok(CheckResponse(corrected.value, explanation.value, parsed));
  }

  /** An answer without `corrected_text` leaves the submitted text as the corrected one. */
  lemma CorrectedTextDefaultsToInput(data: seq<(string, Json)>, text: string)
    requires forall i :: 0 <= i < |data| ==> data[i].0 != "corrected_text"
    ensures StrOr(data, "corrected_text", text) == Ok(text)
  {
  }

  /** What the analyzer call of backend/main.py produced. */
  datatype AnalyzeReply =
    | Unreachable
    | Answered(status: int, body: Option<Json>)

  /**
   * `check` (backend/main.py), as far as the analyzer's answer: 422 for an
   * empty text or an unknown level, the header check, the level choice, and
   * 502 when the analyzer cannot be reached, answers with an error status,
   * or sends something that is not JSON. `analyze` receives the username,
   * the text and the chosen level. A JSON answer that is not an object
   * cannot be read with `.get` and fails the request.
   */
  method Check(state: BackendState, authorization: Option<string>, text: string, level: string,
               analyze: (string, string, string) -> AnalyzeReply)
    returns (r: Result<CheckResponse, HttpError>)
    ensures |text| < 1 || level !in CheckLevels ==> r == Err(ValidationFailed)
    ensures |text| >= 1 && level in CheckLevels && AuthUsernameFromHeader(authorization, state.tokens).Err? ==>
      r == Err(AuthUsernameFromHeader(authorization, state.tokens).error)
    ensures |text| >= 1 && level in CheckLevels && AuthUsernameFromHeader(authorization, state.tokens).Ok? ==>
      var u := AuthUsernameFromHeader(authorization, state.tokens).value;
      var reply := analyze(u, text, state.CheckLevel(u, level));
      (reply.Unreachable? ==> r == Err(HttpError(502, "AI worker is unavailable")))
      && (reply.Answered? && IsErrorStatus(reply.status) ==> r == Err(HttpError(502, "AI worker error: " + StatusText(reply.status))))
      && (reply.Answered? && !IsErrorStatus(reply.status) && reply.body.None? ==>
            r == Err(HttpError(502, "AI worker returned invalid JSON")))
      && (reply.Answered? && !IsErrorStatus(reply.status) && reply.body.Some? && !reply.body.value.JObj? ==>
            r == Err(InternalError))
      && (reply.Answered? && !IsErrorStatus(reply.status) && reply.body.Some? && reply.body.value.JObj? ==>
            r == ShapedResponse(reply.body.value.fields, text))
  {
    if |text| < 1 || level !in CheckLevels {
      return Err(ValidationFailed);
    }
    var auth := AuthUsernameFromHeader(authorization, state.tokens);
    if auth.Err? {
      return Err(auth.error);
    }
    var username := auth.value;
    var chosen := state.CheckLevel(username, level);
    var reply := analyze(username, text, chosen);
    if reply.Unreachable? {
      return Err(HttpError(502, "AI worker is unavailable"));
    }
    if IsErrorStatus(reply.status) {
      return Err(HttpError(502, "AI worker error: " + StatusText(reply.status)));
    }
    if reply.body.None? {
      return Err(HttpError(502, "AI worker returned invalid JSON"));
    }
    if !reply.body.value.JObj? {
      return Err(InternalError);
    }
    r := ShapeCheckResponse(reply.body.value.fields, text);
  }

  /**
   * `not r.ok` in the `requests` library: the reply is a client or server
   * error, a status from 400 to 599.
   */
  predicate IsErrorStatus(status: int)
  {
    400 <= status < 600
  }

  /** `str(status_code)` for the status codes an HTTP reply can carry. */
  function StatusText(status: int): string
  {
    if status < 0 then "-" + Decimal(-status) else Decimal(status)
  }

  /**
   * `check` (services/web/backend/main.py), as far as the messages service's
   * answer: 422 and the header check as above, then the user's record is
   * fetched and its `tg_id` posted with the text. Both calls give None on any
   * failure, and the handler then fails on the missing value, so the 502
   * branch of the source cannot be reached (the client library raises no
   * `requests` exception).
   */
  method CheckWeb(state: BackendState, authorization: Option<string>, text: string, level: string,
                  userRecord: string -> Option<seq<(string, Json)>>,
                  postMessage: (Json, string) -> Option<seq<(string, Json)>>)
    returns (r: Result<CheckResponse, HttpError>)
    ensures |text| < 1 || level !in CheckLevels ==> r == Err(ValidationFailed)
    ensures |text| >= 1 && level in CheckLevels && AuthUsernameFromHeader(authorization, state.tokens).Err? ==>
      r == Err(AuthUsernameFromHeader(authorization, state.tokens).error)
    ensures |text| >= 1 && level in CheckLevels && AuthUsernameFromHeader(authorization, state.tokens).Ok? ==>
      var user := userRecord(AuthUsernameFromHeader(authorization, state.tokens).value);
      (user.None? || Get(user.value, "tg_id").None? ==> r == Err(InternalError))
      && (user.Some? && Get(user.value, "tg_id").Some? ==>
            var data := postMessage(Get(user.value, "tg_id").value, text);
            (data.None? ==> r == Err(InternalError))
            && (data.Some? ==> r == ShapedResponse(data.value, text)))
    ensures r.Err? ==> r.error.status != 502
  {
    if |text| < 1 || level !in CheckLevels {
      return Err(ValidationFailed);
    }
    var auth := AuthUsernameFromHeader(authorization, state.tokens);
    if auth.Err? {
      return Err(auth.error);
    }
    var user := userRecord(auth.value);
    if user.None? {
      return Err(InternalError);
    }
    var tgId := Get(user.value, "tg_id");
    if tgId.None? {
      return Err(InternalError);
    }
    var data := postMessage(tgId.value, text);
    if data.None? {
      return Err(InternalError);
    }
    r := ShapeCheckResponse(data.value, text);
  }
}
