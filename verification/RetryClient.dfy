/**
 The request loop of the HTTP client, against arbitrary servers: `responses(i)` answers the i-th
 request and `auths(i)` is what the i-th authentication does.
 */
module RetryClient {
  import opened Options

  datatype Response = Success | HttpError(code: int) | ConnectionError | OtherException

  datatype AuthOutcome = AuthRaises | AuthSets(url: Option<string>, token: Option<string>)

  datatype Outcome =
    | Returned
    | RaisedHttp(code: int)
    | RaisedConnection
    | RaisedOther           // an exception that the loop does not catch
    | RaisedAuth
    | RaisedType            // the authentication left no URL to append to

  function Pow2(n: nat): nat {
    if n == 0 then 1 else 2 * Pow2(n - 1)
  }

  function Budget(retries: int): nat {
    if retries > 0 then retries else 0
  }

  predicate Retryable(r: Response) {
    r.ConnectionError? || (r.HttpError? && (r.code == 400 || 500 <= r.code <= 599))
  }

  // How many of the first n responses are 401
  function Unauthorized(responses: nat -> Response, n: nat): nat {
    if n == 0 then 0 else Unauthorized(responses, n - 1) + if responses(n - 1) == HttpError(401) then 1 else 0
  }

  // Every one of the first n responses led to another request.
  ghost predicate AllRetried(responses: nat -> Response, n: nat) {
    && Unauthorized(responses, n) <= 1
    && forall i :: 0 <= i < n ==> Retryable(responses(i)) || responses(i) == HttpError(401)
  }

  // The last response is what the call reports, and it gives up on a retryable error only when
  // the retries are used up, and on a 401 only when it is the second.
  ghost predicate Justified(o: Outcome, responses: nat -> Response, sent: nat, sleeps: nat, retries: int) {
    match o
    case Returned => sent > 0 && responses(sent - 1) == Success
    case RaisedHttp(code) =>
      && sent > 0 && responses(sent - 1) == HttpError(code)
      && (code == 401 ==> Unauthorized(responses, sent - 1) == 1)
      && (Retryable(responses(sent - 1)) ==> sleeps == Budget(retries))
    case RaisedConnection => sent > 0 && responses(sent - 1) == ConnectionError && sleeps == Budget(retries)
    case RaisedOther => sent > 0 && responses(sent - 1) == OtherException
    case RaisedAuth | RaisedType => true
  }

  // The call went through `sent` requests and `sleeps` waits as its outcome says.
  ghost predicate Conforms(o: Outcome, responses: nat -> Response, sent: nat, sleeps: nat, retries: int) {
    && sleeps <= Budget(retries)
    && Justified(o, responses, sent, sleeps, retries)
    && if o.RaisedAuth? || o.RaisedType? then
         AllRetried(responses, sent) && sent == sleeps + Unauthorized(responses, sent)
       else
         sent > 0 && AllRetried(responses, sent - 1) && sent == 1 + sleeps + Unauthorized(responses, sent - 1)
  }

  lemma NothingSent(responses: nat -> Response)
    ensures AllRetried(responses, 0) && Unauthorized(responses, 0) == 0 && Pow2(0) == 1
  {
  }

  lemma OneMore(responses: nat -> Response, n: nat, sleeps: nat)
    requires AllRetried(responses, n)
    ensures Unauthorized(responses, n + 1) == Unauthorized(responses, n) + if responses(n) == HttpError(401) then 1 else 0
    ensures Unauthorized(responses, n) <= 1
    ensures Retryable(responses(n)) ==> AllRetried(responses, n + 1)
    ensures responses(n) == HttpError(401) && Unauthorized(responses, n) == 0 ==> AllRetried(responses, n + 1)
    ensures Pow2(sleeps + 1) == 2 * Pow2(sleeps)
  {
  }

  lemma {:induction false} RetriesGrow(responses: nat -> Response, m: nat, n: nat)
    requires m <= n
    ensures Unauthorized(responses, m) <= Unauthorized(responses, n) <= Unauthorized(responses, m) + n - m
  {
    if m < n { RetriesGrow(responses, m, n - 1); }
  }

  /** When authentication goes through, the call succeeds with its n-th response exactly when that
      response is a success and what came before was retryable within the retries, apart from at
      most one 401. */
  lemma SucceedsExactlyWhen(o: Outcome, responses: nat -> Response, sent: nat, sleeps: nat, retries: int, n: nat)
    requires Conforms(o, responses, sent, sleeps, retries) && !o.RaisedAuth? && !o.RaisedType?
    ensures o == Returned && sent == n + 1 <==>
            responses(n) == Success && AllRetried(responses, n) && n - Unauthorized(responses, n) <= Budget(retries)
  {
    if responses(n) == Success && AllRetried(responses, n) && n - Unauthorized(responses, n) <= Budget(retries) {
      var last := sent - 1;
      if last < n {
        RetriesGrow(responses, last + 1, n);
      }
    }
  }

  // ---------- authentication ----------

  // The management URL, the token and the number of authentications so far
  datatype Session = Session(url: Option<string>, token: Option<string>, calls: nat)

  // What comes before a request: an authentication that raises, one that leaves no URL, or the
  // session with which the request is sent
  datatype Login = Failed(s: Session) | NoUrl(s: Session) | Ready(s: Session)

  predicate Missing(value: Option<string>) {
    value == None || value == Some("")
  }

  function Enter(s: Session, auths: nat -> AuthOutcome): Login {
    if Missing(s.url) || Missing(s.token) then
      match auths(s.calls)
      case AuthRaises => Failed(s)
      case AuthSets(url, token) =>
        var now := Session(url, token, s.calls + 1);
        if url == None then NoUrl(now) else Ready(now)
    else Ready(s)
  }

  // A 401 forgets the URL and the token.
  function Answered(s: Session, r: Response): Session {
    if r == HttpError(401) then Session(None, None, s.calls) else s
  }

  // What comes before request n, when all requests before it were sent
  function Before(start: Session, responses: nat -> Response, auths: nat -> AuthOutcome, n: nat): Login {
    if n == 0 then Enter(start, auths) else
    match Before(start, responses, auths, n - 1)
    case Ready(s) => Enter(Answered(s, responses(n - 1)), auths)
    case stopped => stopped
  }

  ghost predicate LoginsAgree(o: Outcome, responses: nat -> Response, auths: nat -> AuthOutcome, start: Session, sent: nat, end: Session) {
    match o
    case RaisedAuth => Before(start, responses, auths, sent) == Failed(end)
    case RaisedType => Before(start, responses, auths, sent) == NoUrl(end)
    case _ => sent > 0 && Before(start, responses, auths, sent - 1) == Ready(end)
  }

  // Every authentication sets a URL and a token.
  ghost predicate AuthsWork(auths: nat -> AuthOutcome) {
    forall i: nat :: auths(i).AuthSets? && auths(i).url.Some? && auths(i).url.value != ""
                     && auths(i).token.Some? && auths(i).token.value != ""
  }

  /** When authentications work, every request is sent with a URL and a token. A client that has both
      authenticates once for every 401 before the request and otherwise keeps what it has; a client
      that lacks one authenticates once more, before its first request. */
  lemma {:induction false} WorkingLogins(start: Session, responses: nat -> Response, auths: nat -> AuthOutcome, n: nat)
    requires AuthsWork(auths)
    ensures var has := start.url.Some? && start.url.value != "" && start.token.Some? && start.token.value != "";
            var b := Before(start, responses, auths, n);
            && b.Ready?
            && b.s.calls == start.calls + Unauthorized(responses, n) + (if has then 0 else 1)
            && (if b.s.calls == start.calls then b.s.url == start.url && b.s.token == start.token
                else b.s.url == auths(b.s.calls - 1).url && b.s.token == auths(b.s.calls - 1).token)
  {
    if n > 0 {
      WorkingLogins(start, responses, auths, n - 1);
    }
  }

  /** So the outcome is decided by the responses: the call succeeds with its n-th response exactly
      when that is a success and what came before was a connection error, a 400 or a 5xx within the
      retries, apart from at most one 401. */
  lemma WorkingCall(o: Outcome, responses: nat -> Response, auths: nat -> AuthOutcome, start: Session, end: Session,
                    sent: nat, sleeps: nat, retries: int, n: nat)
    requires AuthsWork(auths) && Conforms(o, responses, sent, sleeps, retries)
    requires LoginsAgree(o, responses, auths, start, sent, end)
    ensures !o.RaisedAuth? && !o.RaisedType?
    ensures o == Returned && sent == n + 1 <==>
            && responses(n) == Success
            && (forall i :: 0 <= i < n ==>
                  || responses(i) == ConnectionError
                  || (responses(i).HttpError? && (responses(i).code in {400, 401} || 500 <= responses(i).code <= 599)))
            && Unauthorized(responses, n) <= 1
            && n - Unauthorized(responses, n) <= if retries > 0 then retries else 0
  {
    WorkingLogins(start, responses, auths, sent);
    SucceedsExactlyWhen(o, responses, sent, sleeps, retries, n);
    hide Unauthorized;
    assert AllRetried(responses, n) <==>
           && Unauthorized(responses, n) <= 1
           && forall i :: 0 <= i < n ==>
                || responses(i) == ConnectionError
                || (responses(i).HttpError? && (responses(i).code in {400, 401} || 500 <= responses(i).code <= 599));
  }

  lemma {:induction false} StoppedBecause(start: Session, responses: nat -> Response, auths: nat -> AuthOutcome, n: nat)
    ensures var b := Before(start, responses, auths, n);
            && (b.Failed? ==> auths(b.s.calls) == AuthRaises && (b.s.url in {None, Some("")} || b.s.token in {None, Some("")}))
            && (b.NoUrl? ==> b.s.calls > 0 && auths(b.s.calls - 1) == AuthSets(None, b.s.token) && b.s.url == None)
            && (b.Ready? ==> b.s.url.Some?)
  {
    if n > 0 { StoppedBecause(start, responses, auths, n - 1); }
  }

  lemma BeforeFirst(start: Session, responses: nat -> Response, auths: nat -> AuthOutcome)
    ensures Before(start, responses, auths, 0) == Enter(start, auths)
  {
  }

  lemma BeforeStep(start: Session, responses: nat -> Response, auths: nat -> AuthOutcome, n: nat)
    requires n > 0 && Before(start, responses, auths, n - 1).Ready?
    ensures Before(start, responses, auths, n) ==
            Enter(Answered(Before(start, responses, auths, n - 1).s, responses(n - 1)), auths)
  {
  }

  class HTTPClient {
    const retries: int
    var managementUrl: Option<string>
    var authToken: Option<string>

    constructor (retries: int)
      ensures this.retries == retries && managementUrl == None && authToken == None
    {
      this.retries := retries;
      managementUrl, authToken := None, None;
    }

    method EnsureAuthenticated(auths: nat -> AuthOutcome, calls: nat) returns (raised: bool, authCalls: nat)
      modifies this
      ensures var s := Session(managementUrl, authToken, authCalls);
              Enter(Session(old(managementUrl), old(authToken), calls), auths) ==
              if raised then Failed(s) else if managementUrl == None then NoUrl(s) else Ready(s)
    {
      raised, authCalls := false, calls;
      if Missing(managementUrl) || Missing(authToken) {
        match auths(authCalls)
        case AuthRaises => raised := true;
        case AuthSets(url, token) => managementUrl, authToken, authCalls := url, token, authCalls + 1;
      }
    }

    method Request(responses: nat -> Response, auths: nat -> AuthOutcome)
      returns (o: Outcome, sent: nat, sleeps: nat, slept: nat, authCalls: nat)
      modifies this
      ensures sent <= Budget(retries) + 2
      ensures sleeps <= Budget(retries) && slept == Pow2(sleeps) - 1
      ensures Conforms(o, responses, sent, sleeps, retries)
      ensures LoginsAgree(o, responses, auths, Session(old(managementUrl), old(authToken), 0), sent,
                          Session(managementUrl, authToken, authCalls))
      ensures o.RaisedType? ==> authCalls > 0 && auths(authCalls - 1) == AuthSets(None, authToken) && managementUrl == None
      ensures o.RaisedAuth? ==> auths(authCalls) == AuthRaises
    {
      hide AllRetried, Unauthorized, Pow2, Before, Enter;
      NothingSent(responses);
      ghost var start := Session(managementUrl, authToken, 0);
      var authAttempts, attempts, backoff := 0, 0, 1;
      sent, sleeps, slept, authCalls := 0, 0, 0, 0;
      BeforeFirst(start, responses, auths);
      while true
        invariant 0 <= authAttempts <= 1 && attempts == sleeps <= Budget(retries)
        invariant AllRetried(responses, sent) && authAttempts == Unauthorized(responses, sent)
        invariant sent == sleeps + authAttempts
        invariant backoff == Pow2(sleeps) && slept == backoff - 1
        invariant Before(start, responses, auths, sent) == Enter(Session(managementUrl, authToken, authCalls), auths)
        decreases 1 - authAttempts, Budget(retries) - attempts
      {
        attempts := attempts + 1;
        StoppedBecause(start, responses, auths, sent);
        var raised: bool;
        raised, authCalls := EnsureAuthenticated(auths, authCalls);
        if raised {
          return RaisedAuth, sent, sleeps, slept, authCalls;
        }
        if managementUrl == None {
          return RaisedType, sent, sleeps, slept, authCalls;
        }
        var response := responses(sent);
        OneMore(responses, sent, sleeps);
        sent := sent + 1;
        assert Before(start, responses, auths, sent - 1) == Ready(Session(managementUrl, authToken, authCalls));
        BeforeStep(start, responses, auths, sent);
        match response {
          case Success =>
            return Returned, sent, sleeps, slept, authCalls;
          case HttpError(code) =>
            if code == 400 {
              if attempts > retries { return RaisedHttp(code), sent, sleeps, slept, authCalls; }
            } else if code == 401 {
              if authAttempts > 0 { return RaisedHttp(code), sent, sleeps, slept, authCalls; }
              managementUrl, authToken := None, None;
              attempts := attempts - 1;
              authAttempts := authAttempts + 1;
              continue;
            } else {
              if attempts > retries { return RaisedHttp(code), sent, sleeps, slept, authCalls; }
              if !(500 <= code <= 599) { return RaisedHttp(code), sent, sleeps, slept, authCalls; }
            }
          case ConnectionError =>
            if attempts > retries { return RaisedConnection, sent, sleeps, slept, authCalls; }
          case OtherException =>
            return RaisedOther, sent, sleeps, slept, authCalls;
        }
        sleeps := sleeps + 1;
        slept := slept + backoff;
        backoff := backoff * 2;
      }
    }
  }
}
