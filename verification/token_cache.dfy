/** The process-wide bearer-token cache of `getAccessToken`. The login call
    is an input: its outcome, and the clock reading taken after it returns,
    are parameters of the step. */
module TokenCache {
  import opened Wrappers

  /** The two module-level variables `accessToken` and `tokenExpires`. */
  datatype Cache = Cache(accessToken: Option<string>, tokenExpires: int)

  /** The cache at process start. */
  const Initial: Cache := Cache(None, 0)

  /** A token is given up this long before the login response says it lapses. */
  const RefreshMarginMs: int := 60000

  /** The `token` object of a login response; `expiresIn` is in seconds. */
  datatype LoginResponse = LoginResponse(accessToken: Option<string>, expiresIn: int)

  /** The login call rejected, or its response had no `token` object. */
  datatype AuthError = AuthError(message: string)

  /** What one call returns and the cache it leaves behind; `loggedIn` tells
      whether the login endpoint was called. */
  datatype Step = Step(token: Result<Option<string>, AuthError>, cache: Cache, loggedIn: bool)

  /** When a token issued at `issuedMs`, valid for `expiresIn` seconds, is
      dropped from the cache. */
  function Deadline(issuedMs: int, expiresIn: int): (d: int)
    ensures d + RefreshMarginMs == issuedMs + expiresIn * 1000
  {
    issuedMs + expiresIn * 1000 - RefreshMarginMs
  }

  /** One call of `getAccessToken`: `checkMs` is the clock reading of the
      freshness test, `login` the outcome the login call would have, and
      `issuedMs` the clock reading after it returned. */
  function GetAccessToken(c: Cache, checkMs: int, login: Result<LoginResponse, AuthError>, issuedMs: int): (s: Step)
    ensures !s.loggedIn <==> Truthy(c.accessToken) && checkMs < c.tokenExpires
    ensures !s.loggedIn ==> s.token == Success(c.accessToken) && s.cache == c
    ensures s.loggedIn && login.Failure? ==> s.token == Failure(login.error) && s.cache == c
    ensures s.loggedIn && login.Success? ==>
      && s.token == Success(login.value.accessToken)
      && s.cache.accessToken == login.value.accessToken
      && s.cache.tokenExpires + RefreshMarginMs == issuedMs + login.value.expiresIn * 1000
  {
    if Truthy(c.accessToken) && checkMs < c.tokenExpires then
      Step(Success(c.accessToken), c, false)
    else
      match login
      case Failure(e) => Step(Failure(e), c, true)
      case Success(r) =>
        Step(Success(r.accessToken), Cache(r.accessToken, Deadline(issuedMs, r.expiresIn)), true)
  }

  /** One call's inputs. */
  datatype Call = Call(checkMs: int, login: Result<LoginResponse, AuthError>, issuedMs: int)

  /** How one call was answered. */
  datatype Served =
    | Reused(token: Option<string>, atMs: int)
    | Issued(token: Option<string>, atMs: int, expiresIn: int)
    | Failed

  function Serve(c: Cache, call: Call): Served {
    var s := GetAccessToken(c, call.checkMs, call.login, call.issuedMs);
    if !s.loggedIn then Reused(c.accessToken, call.checkMs)
    else if call.login.Failure? then Failed
    else Issued(call.login.value.accessToken, call.issuedMs, call.login.value.expiresIn)
  }

  /** The answers to a sequence of calls made one after another. */
  function Run(c: Cache, calls: seq<Call>): (out: seq<Served>)
    ensures |out| == |calls|
    decreases |calls|
  {
    if |calls| == 0 then []
    else
      var s := GetAccessToken(c, calls[0].checkMs, calls[0].login, calls[0].issuedMs);
      [Serve(c, calls[0])] + Run(s.cache, calls[1..])
  }

  /** The most recent login that succeeded, if any. */
  function LastIssued(hist: seq<Served>): (l: Option<Served>)
    ensures l.Some? ==> l.value.Issued? && l.value in hist
  {
    if |hist| == 0 then None
    else if hist[|hist| - 1].Issued? then Some(hist[|hist| - 1])
    else LastIssued(hist[..|hist| - 1])
  }

  /** A reuse is justified by what came before it: it hands out the token of
      the most recent successful login, strictly before that token's last
      minute begins. */
  ghost predicate ReuseJustified(before: seq<Served>, s: Served) {
    s.Reused? ==>
      && Truthy(s.token)
      && LastIssued(before).Some?
      && s.token == LastIssued(before).value.token
      && s.atMs < Deadline(LastIssued(before).value.atMs, LastIssued(before).value.expiresIn)
  }

  /** The cache agrees with the history of answers that produced it. */
  ghost predicate Agrees(c: Cache, hist: seq<Served>) {
    Truthy(c.accessToken) ==>
      && LastIssued(hist).Some?
      && c.accessToken == LastIssued(hist).value.token
      && c.tokenExpires == Deadline(LastIssued(hist).value.atMs, LastIssued(hist).value.expiresIn)
  }

  lemma {:induction false} RunJustified(c: Cache, hist: seq<Served>, calls: seq<Call>)
    requires Agrees(c, hist)
    ensures forall i :: |hist| <= i < |hist| + |calls| ==>
      ReuseJustified((hist + Run(c, calls))[..i], (hist + Run(c, calls))[i])
    decreases |calls|
  {
    if |calls| > 0 {
      var call := calls[0];
      var s := GetAccessToken(c, call.checkMs, call.login, call.issuedMs);
      var first := Serve(c, call);
      var hist' := hist + [first];
      assert hist'[..|hist|] == hist;
      assert ReuseJustified(hist, first);
      assert Agrees(s.cache, hist');
      RunJustified(s.cache, hist', calls[1..]);
      var full := hist + Run(c, calls);
      assert full == hist' + Run(s.cache, calls[1..]);
      assert full[..|hist|] == hist;
    }
  }

  /** From a fresh process, every token served from the cache is the one the
      latest successful login issued, and it is never served during the final
      minute of the lifetime that login announced. */
  lemma CachedTokenNeverServedInFinalMinute(calls: seq<Call>)
    ensures forall i :: 0 <= i < |calls| ==> ReuseJustified(Run(Initial, calls)[..i], Run(Initial, calls)[i])
  {
    RunJustified(Initial, [], calls);
    assert [] + Run(Initial, calls) == Run(Initial, calls);
  }

  /** A login that yields an empty or missing token, or a lifetime of at most
      one minute, is never reused: the next call, made no earlier than the
      login returned, logs in again. */
  lemma UnusableLoginNotReused(c: Cache, call: Call, next: Call)
    requires call.login.Success?
    requires !Truthy(call.login.value.accessToken) || call.login.value.expiresIn <= 60
    requires !(Truthy(c.accessToken) && call.checkMs < c.tokenExpires)
    requires next.checkMs >= call.issuedMs
    ensures Run(c, [call, next])[0].Issued?
    ensures !Run(c, [call, next])[1].Reused?
  {
    var s := GetAccessToken(c, call.checkMs, call.login, call.issuedMs);
    assert [call, next][1..] == [next];
  }
}
