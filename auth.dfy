/**
 * calgo's OAuth 2.0 authenticator: it loads the client credentials once, keeps the user's token
 * in a token file, refreshes a stale token, and otherwise runs the browser flow, in which a local
 * callback server receives the authorization code. Everything the authenticator asks of the
 * outside world (the credentials file, the token refresh, the callback listener, the wait for the
 * browser, the code exchange, writes and removals of the token file) is an outcome handed in; the
 * token files on disk are a map from path to content, held by the authenticator.
 */
module Auth {
  import opened Wrappers
  import opened Text
  import opened Civil

  // ---------------------------------------------------------------------------
  // Tokens, credentials and files
  // ---------------------------------------------------------------------------

  /** An oauth2.Token; an expiry of None is Go's zero time. */
  datatype Token = Token(accessToken: string, tokenType: string, refreshToken: string, expiry: Option<int>)

  /** The token json.Unmarshal makes of an empty object. */
  const ZeroToken: Token := Token("", "", "", None)

  /**
   * Token.Valid belongs to the oauth2 library and is a parameter. These are the two facts about it
   * that calgo relies on: a token without fields is not valid, nor is one that expired an hour
   * or more before now.
   */
  ghost predicate ValidityAsTested(valid: Token -> bool, now: int)
  {
    && !valid(ZeroToken)
    && forall t: Token :: t.expiry.Some? && t.expiry.value <= now - Hour ==> !valid(t)
  }

  /** The oauth2.Config read from the credentials file; only the redirect URL is ever changed. */
  datatype OAuthConfig = OAuthConfig(clientId: string, redirectUrl: string)

  /** What reading and parsing the credentials file gives. */
  datatype CredentialsRead =
    | CredentialsMissing(cause: string)    // os.ReadFile failed
    | CredentialsMalformed(cause: string)  // google.ConfigFromJSON refused the content
    | CredentialsParsed(config: OAuthConfig)

  /** The content of a token file: a marshalled token, the empty object "{}", or no JSON. */
  datatype TokenFile = TokenJson(token: Token) | EmptyObject | NotJson(jsonError: string)

  // ---------------------------------------------------------------------------
  // Errors
  // ---------------------------------------------------------------------------

  /** The sentinel errors callers test for; TokenRefreshFailed is declared but never returned. */
  datatype AuthSentinel = InvalidCredentialsFormat | AuthenticationFailed | TokenRefreshFailed

  datatype AuthError =
    | CredentialsUnreadable(cause: string)  // "failed to read credentials file: ..."
    | InvalidCredentials(cause: string)     // wraps InvalidCredentialsFormat
    | CallbackServerFailed(cause: string)   // "failed to start callback server: ..."
    | CallbackError(cause: string)          // wraps AuthenticationFailed
    | ContextDone(cause: string)            // the context's own error
    | TimedOut                              // wraps AuthenticationFailed
    | ExchangeFailed(cause: string)         // wraps AuthenticationFailed
    | TokenMissing(path: string)            // "open <path>: no such file or directory"
    | TokenUnparsable(cause: string)        // "failed to parse token file: ..."
    | TokenWriteFailed(cause: string)       // "failed to write token file: ..."
    | TokenRemoveFailed(cause: string)      // "failed to remove token file: ..."

  function Wrapped(e: AuthError): Option<AuthSentinel>
  {
    match e
    case InvalidCredentials(_) => Some(InvalidCredentialsFormat)
    case CallbackError(_) => Some(AuthenticationFailed)
    case TimedOut => Some(AuthenticationFailed)
    case ExchangeFailed(_) => Some(AuthenticationFailed)
    case _ => None
  }

  function SentinelText(k: AuthSentinel): string
  {
    match k
    case InvalidCredentialsFormat => "invalid credentials file format"
    case AuthenticationFailed => "authentication failed"
    case TokenRefreshFailed => "token refresh failed"
  }

  /** Error(): a wrapped sentinel's text comes first, then ": " and the detail. */
  function Message(e: AuthError): (m: string)
    ensures Wrapped(e).Some? ==> HasPrefix(m, SentinelText(Wrapped(e).value) + ": ")
  {
    match e
    case CredentialsUnreadable(cause) => "failed to read credentials file: " + cause
    case InvalidCredentials(cause) => (SentinelText(InvalidCredentialsFormat) + ": ") + cause
    case CallbackServerFailed(cause) => "failed to start callback server: " + cause
    case CallbackError(cause) => (SentinelText(AuthenticationFailed) + ": ") + cause
    case ContextDone(cause) => cause
    case TimedOut => (SentinelText(AuthenticationFailed) + ": ") + "timeout waiting for authorization"
    case ExchangeFailed(cause) => (SentinelText(AuthenticationFailed) + ": ") + cause
    case TokenMissing(path) => "open " + path + ": no such file or directory"
    case TokenUnparsable(cause) => "failed to parse token file: " + cause
    case TokenWriteFailed(cause) => "failed to write token file: " + cause
    case TokenRemoveFailed(cause) => "failed to remove token file: " + cause
  }

  // ---------------------------------------------------------------------------
  // The token file
  // ---------------------------------------------------------------------------

  /** loadToken: the token in the file at path. */
  function LoadTokenFrom(files: map<string, TokenFile>, path: string): (r: Result<Token, AuthError>)
    ensures r.Ok? <==> path in files && !files[path].NotJson?
    ensures path !in files ==> r == Err(TokenMissing(path))
  {
    if path !in files then Err(TokenMissing(path))
    else
      match files[path]
      case TokenJson(t) => Ok(t)
      case EmptyObject => Ok(ZeroToken)
      case NotJson(cause) => Err(TokenUnparsable(cause))
  }

  /** saveToken's effect on the files: the token is written unless the write fails. */
  function SaveTokenTo(files: map<string, TokenFile>, path: string, token: Token, writeFailure: Option<string>)
    : map<string, TokenFile>
  {
    if writeFailure.None? then files[path := TokenJson(token)] else files
  }

  /** A saved token loads back unchanged: the same access token, type, refresh token and expiry. */
  lemma LoadAfterSave(files: map<string, TokenFile>, path: string, token: Token)
    ensures LoadTokenFrom(SaveTokenTo(files, path, token, None), path) == Ok(token)
  {
  }

  /** "{}" loads, as a token that is not valid. */
  lemma EmptyObjectLoadsInvalid(files: map<string, TokenFile>, path: string, valid: Token -> bool, now: int)
    requires path in files && files[path] == EmptyObject
    requires ValidityAsTested(valid, now)
    ensures LoadTokenFrom(files, path).Ok? && !valid(LoadTokenFrom(files, path).value)
  {
  }

  /** ClearToken's effect on the files: the file is gone, unless removing an existing one fails. */
  function ClearTokenFrom(files: map<string, TokenFile>, path: string, removeFailure: Option<string>)
    : (r: (map<string, TokenFile>, Option<AuthError>))
    ensures r.1.None? <==> path !in files || removeFailure.None?
    ensures r.1.None? ==> path !in r.0
    ensures r.1.Some? ==> r.0 == files
    ensures forall p :: p != path ==> (p in r.0 <==> p in files)
  {
    if path !in files then (files, None)
    else if removeFailure.None? then (files - {path}, None)
    else (files, Some(TokenRemoveFailed(removeFailure.value)))
  }

  /** Clearing twice succeeds both times and leaves no token, whatever the second removal would do. */
  lemma ClearTwice(files: map<string, TokenFile>, path: string, second: Option<string>)
    ensures var (once, e1) := ClearTokenFrom(files, path, None);
      var (twice, e2) := ClearTokenFrom(once, path, second);
      e1.None? && e2.None? && twice == once && path !in twice
  {
  }

  // ---------------------------------------------------------------------------
  // The callback handler
  // ---------------------------------------------------------------------------

  /** What the handler passes on: the code on the code channel, or an error on the error channel. */
  datatype Delivery = CodeSent(code: string) | ErrorSent(message: string)

  /** The handler's answer to the browser and what it delivered. */
  datatype CallbackReply = CallbackReply(status: int, contentType: string, delivery: Delivery)

  /** Query().Get: the value of a parameter, "" when absent. */
  function QueryValue(query: map<string, string>, key: string): string
  {
    if key in query then query[key] else ""
  }

  /** The callback handler's decision on the redirect's query. */
  function HandleCallback(query: map<string, string>): (reply: CallbackReply)
    ensures reply.delivery.CodeSent? <==> QueryValue(query, "code") != []
    ensures reply.delivery.CodeSent? ==> reply.delivery.code == QueryValue(query, "code")
    ensures reply.status == 200 <==> reply.delivery.CodeSent?
  {
    var code := QueryValue(query, "code");
    if code == [] then
      var err := QueryValue(query, "error");
      CallbackReply(400, "text/plain; charset=utf-8",
                    ErrorSent(if err == [] then "no authorization code received" else err))
    else
      CallbackReply(200, "text/html", CodeSent(code))
  }

  /**
   * Without a code the browser gets a 400 and the error channel the provider's error text, or a
   * fixed text when the provider gave none; the error parameter never matters when a code is there.
   */
  lemma CallbackWithoutCode(query: map<string, string>)
    requires QueryValue(query, "code") == []
    ensures HandleCallback(query).status == 400
    ensures QueryValue(query, "error") != [] ==> HandleCallback(query).delivery == ErrorSent(QueryValue(query, "error"))
    ensures QueryValue(query, "error") == [] ==>
      HandleCallback(query).delivery == ErrorSent("no authorization code received")
  {
  }

  lemma CodeWinsOverError(query: map<string, string>, err: string)
    requires QueryValue(query, "code") != []
    ensures HandleCallback(query["error" := err]) == HandleCallback(query)
    ensures HandleCallback(query).contentType == "text/html"
  {
    assert QueryValue(query["error" := err], "code") == QueryValue(query, "code");
  }

  // ---------------------------------------------------------------------------
  // The browser flow
  // ---------------------------------------------------------------------------

  /** The first of the four events the flow waits for. */
  datatype WaitEvent =
    | CodeArrived(code: string)
    | ErrorArrived(message: string)
    | Cancelled(cause: string)
    | FiveMinutesPassed

  /** The outcomes the browser flow meets, in order. */
  datatype Flow = Flow(
    listen: Result<int, string>,             // the callback listener's port, or why it failed
    event: WaitEvent,
    exchange: string -> Result<Token, string>)  // Exchange of an authorization code

  /** The redirect URL the flow registers for its listener. */
  function RedirectFor(port: int): (url: string)
    ensures |url| > 17 && url[..17] == "http://localhost:"
  {
    "http://localhost:" + FormatInt(port)
  }

  /** The listener's port can be read back from the redirect URL. */
  lemma RedirectNamesPort(port: int)
    requires InInt64(port)
    ensures Atoi(RedirectFor(port)[17..]) == Some(port)
  {
    assert RedirectFor(port)[17..] == FormatInt(port);
    AtoiFormatInt(port);
  }

  /** What the wait and the exchange lead to. */
  function WaitOutcome(event: WaitEvent, exchange: string -> Result<Token, string>): (r: Result<Token, AuthError>)
    ensures r.Ok? <==> event.CodeArrived? && exchange(event.code).Ok?
    ensures r.Ok? ==> r.value == exchange(event.code).value
  {
    match event
    case ErrorArrived(message) => Err(CallbackError(message))
    case Cancelled(cause) => Err(ContextDone(cause))
    case FiveMinutesPassed => Err(TimedOut)
    case CodeArrived(code) =>
      match exchange(code)
      case Ok(token) => Ok(token)
      case Err(cause) => Err(ExchangeFailed(cause))
  }

  /**
   * Every failure of the flow but a cancelled context is an authentication failure, and a
   * cancelled context gives the context's own error.
   */
  lemma WaitFailures(event: WaitEvent, exchange: string -> Result<Token, string>)
    requires WaitOutcome(event, exchange).Err?
    ensures event.Cancelled? <==> WaitOutcome(event, exchange).error.ContextDone?
    ensures event.Cancelled? ==> WaitOutcome(event, exchange).error == ContextDone(event.cause)
    ensures !event.Cancelled? <==> Wrapped(WaitOutcome(event, exchange).error) == Some(AuthenticationFailed)
  {
  }

  // ---------------------------------------------------------------------------
  // GetToken, as a function of the state
  // ---------------------------------------------------------------------------

  /** The authenticator's state: the loaded configuration and the token files. */
  datatype State = State(config: Option<OAuthConfig>, files: map<string, TokenFile>)

  /** Everything GetToken meets outside the authenticator. */
  datatype World = World(
    credentials: CredentialsRead,
    valid: Token -> bool,
    refresh: Option<Token>,        // the refreshed token, or None when the refresh fails
    writeFailure: Option<string>,  // why writing the token file fails, if it does
    flow: Flow)

  datatype Outcome = Outcome(state: State, result: Result<Token, AuthError>)

  /** authenticate, on a state whose configuration is loaded. */
  function AuthenticateSpec(st: State, path: string, w: World): (o: Outcome)
    requires st.config.Some?
    ensures o.result.Ok? ==> o.state.files == SaveTokenTo(st.files, path, o.result.value, w.writeFailure)
    ensures o.result.Err? ==> o.state.files == st.files
  {
    match w.flow.listen
    case Err(cause) => Outcome(st, Err(CallbackServerFailed(cause)))
    case Ok(port) =>
      var config := st.config.value.(redirectUrl := RedirectFor(port));
      match WaitOutcome(w.flow.event, w.flow.exchange)
      case Err(e) => Outcome(State(Some(config), st.files), Err(e))
      case Ok(token) => Outcome(State(Some(config), SaveTokenTo(st.files, path, token, w.writeFailure)), Ok(token))
  }

  /** GetToken: credentials, then the saved token, then a refresh, then the browser flow. */
  function GetTokenSpec(st: State, path: string, w: World): (o: Outcome)
    ensures o.result.Ok? ==> o.state.config.Some?
  {
    if st.config.None? && !w.credentials.CredentialsParsed? then
      Outcome(st, Err(if w.credentials.CredentialsMissing? then CredentialsUnreadable(w.credentials.cause)
                      else InvalidCredentials(w.credentials.cause)))
    else
      var loaded := State(if st.config.None? then Some(w.credentials.config) else st.config, st.files);
      match LoadTokenFrom(st.files, path)
      case Ok(token) =>
        if w.valid(token) then Outcome(loaded, Ok(token))
        else if w.refresh.Some? then
          Outcome(loaded.(files := SaveTokenTo(st.files, path, w.refresh.value, w.writeFailure)), Ok(w.refresh.value))
        else AuthenticateSpec(loaded, path, w)
      case Err(_) => AuthenticateSpec(loaded, path, w)
  }

  /** A credentials failure is returned at once: nothing else is read, written or asked. */
  lemma CredentialsFailureStops(st: State, path: string, w: World)
    requires st.config.None? && !w.credentials.CredentialsParsed?
    ensures GetTokenSpec(st, path, w).state == st
    ensures w.credentials.CredentialsMalformed? ==>
      Wrapped(GetTokenSpec(st, path, w).result.error) == Some(InvalidCredentialsFormat)
    ensures w.credentials.CredentialsMissing? ==>
      GetTokenSpec(st, path, w).result == Err(CredentialsUnreadable(w.credentials.cause))
  {
  }

  /** Credentials are read once: with a configuration loaded, the credentials file plays no part. */
  lemma CredentialsReadOnce(st: State, path: string, w: World, other: CredentialsRead)
    requires st.config.Some?
    ensures GetTokenSpec(st, path, w) == GetTokenSpec(st, path, w.(credentials := other))
  {
  }

  /**
   * A valid saved token is returned as it is, and nothing is written: neither the refresh nor
   * the browser flow (nor a cancelled context within it) plays any part.
   */
  lemma ValidTokenReturned(st: State, path: string, w: World, token: Token, refresh: Option<Token>, flow: Flow)
    requires st.config.Some? || w.credentials.CredentialsParsed?
    requires LoadTokenFrom(st.files, path) == Ok(token) && w.valid(token)
    ensures GetTokenSpec(st, path, w).result == Ok(token)
    ensures GetTokenSpec(st, path, w).state.files == st.files
    ensures GetTokenSpec(st, path, w) == GetTokenSpec(st, path, w.(refresh := refresh, flow := flow))
  {
  }

  /**
   * A stale token that refreshes gives the new token, which is written to the token file; a
   * failed write changes nothing in the result.
   */
  lemma RefreshedTokenReturned(st: State, path: string, w: World, token: Token, renewed: Token)
    requires st.config.Some? || w.credentials.CredentialsParsed?
    requires LoadTokenFrom(st.files, path) == Ok(token) && !w.valid(token) && w.refresh == Some(renewed)
    ensures GetTokenSpec(st, path, w).result == Ok(renewed)
    ensures w.writeFailure.None? ==> LoadTokenFrom(GetTokenSpec(st, path, w).state.files, path) == Ok(renewed)
    ensures GetTokenSpec(st, path, w).result == GetTokenSpec(st, path, w.(writeFailure := None)).result
  {
  }

  /**
   * A missing or unreadable token file, or a failed refresh, leads to the browser flow, whose
   * result is returned: the refresh failure itself never is.
   */
  lemma FallsBackToBrowser(st: State, path: string, w: World)
    requires st.config.Some? || w.credentials.CredentialsParsed?
    requires LoadTokenFrom(st.files, path).Err? ||
      (!w.valid(LoadTokenFrom(st.files, path).value) && w.refresh.None?)
    ensures var loaded := State(if st.config.None? then Some(w.credentials.config) else st.config, st.files);
      GetTokenSpec(st, path, w) == AuthenticateSpec(loaded, path, w)
  {
  }

  /** A token file holding "{}" is never returned as it is: it is refreshed or replaced by the flow. */
  lemma EmptyObjectNotUsed(st: State, path: string, w: World, now: int)
    requires st.config.Some?
    requires path in st.files && st.files[path] == EmptyObject
    requires ValidityAsTested(w.valid, now)
    ensures GetTokenSpec(st, path, w).result ==
      if w.refresh.Some? then Ok(w.refresh.value) else AuthenticateSpec(st, path, w).result
  {
  }

  /**
   * The browser flow returns the exchanged token even when it cannot be saved; it is written to
   * the token file when it can.
   */
  lemma FlowSaveOnlyWarns(st: State, path: string, w: World)
    requires st.config.Some?
    ensures AuthenticateSpec(st, path, w).result == AuthenticateSpec(st, path, w.(writeFailure := None)).result
    ensures AuthenticateSpec(st, path, w).result.Ok? <==>
      w.flow.listen.Ok? && WaitOutcome(w.flow.event, w.flow.exchange).Ok?
  {
  }

  // ---------------------------------------------------------------------------
  // The authenticator
  // ---------------------------------------------------------------------------

  /** The HTTP client GetClient builds: the configuration and the token it sends. */
  datatype HttpClient = HttpClient(config: OAuthConfig, token: Token)

  class Authenticator {
    const credentialsPath: string
    const tokenPath: string
    var config: Option<OAuthConfig>
    /** The token files on disk, by path. */
    var tokenFiles: map<string, TokenFile>

    function Snapshot(): State
      reads this
    {
      State(config, tokenFiles)
    }

    /** NewAuthenticator: the paths are kept; no credentials are read yet. */
    constructor(credentialsPath: string, tokenPath: string, disk: map<string, TokenFile>)
      ensures this.credentialsPath == credentialsPath && this.tokenPath == tokenPath
      ensures config.None? && tokenFiles == disk
    {
      this.credentialsPath := credentialsPath;
      this.tokenPath := tokenPath;
      config := None;
      tokenFiles := disk;
    }

    /** LoadCredentials: a parsed configuration replaces the current one; a failure keeps it. */
    method LoadCredentials(read: CredentialsRead) returns (err: Option<AuthError>)
      modifies this
      ensures read.CredentialsParsed? <==> err.None?
      ensures read.CredentialsParsed? ==> config == Some(read.config)
      ensures read.CredentialsMissing? ==> err == Some(CredentialsUnreadable(read.cause)) && config == old(config)
      ensures read.CredentialsMalformed? ==> err == Some(InvalidCredentials(read.cause)) && config == old(config)
      ensures tokenFiles == old(tokenFiles)
    {
      match read
      case CredentialsMissing(cause) =>
        err := Some(CredentialsUnreadable(cause));
      case CredentialsMalformed(cause) =>
        err := Some(InvalidCredentials(cause));
      case CredentialsParsed(c) =>
        config := Some(c);
        err := None;
    }

    /**
     * loadToken on the authenticator's own path: a missing file is the open error, text that is
     * not JSON is the parse error, and a token or the empty object "{}" is read back.
     */
    function LoadToken(): (r: Result<Token, AuthError>)
      reads this
      ensures r.Ok? <==> tokenPath in tokenFiles && !tokenFiles[tokenPath].NotJson?
      ensures tokenPath !in tokenFiles ==> r == Err(TokenMissing(tokenPath))
      ensures tokenPath in tokenFiles && tokenFiles[tokenPath].TokenJson? ==> r == Ok(tokenFiles[tokenPath].token)
      ensures tokenPath in tokenFiles && tokenFiles[tokenPath].EmptyObject? ==> r == Ok(ZeroToken)
      ensures tokenPath in tokenFiles && tokenFiles[tokenPath].NotJson? ==>
        r == Err(TokenUnparsable(tokenFiles[tokenPath].jsonError))
    {
      LoadTokenFrom(tokenFiles, tokenPath)
    }

    /** saveToken. */
    method SaveToken(token: Token, writeFailure: Option<string>) returns (err: Option<AuthError>)
      modifies this
      ensures tokenFiles == SaveTokenTo(old(tokenFiles), tokenPath, token, writeFailure)
      ensures config == old(config)
      ensures err.None? <==> writeFailure.None?
    {
      if writeFailure.None? {
        tokenFiles := tokenFiles[tokenPath := TokenJson(token)];
        err := None;
      } else {
        err := Some(TokenWriteFailed(writeFailure.value));
      }
    }

    /** ClearToken. */
    method ClearToken(removeFailure: Option<string>) returns (err: Option<AuthError>)
      modifies this
      ensures (tokenFiles, err) == ClearTokenFrom(old(tokenFiles), tokenPath, removeFailure)
      ensures config == old(config)
    {
      if tokenPath !in tokenFiles {
        err := None;
      } else if removeFailure.None? {
        tokenFiles := tokenFiles - {tokenPath};
        err := None;
      } else {
        err := Some(TokenRemoveFailed(removeFailure.value));
      }
    }

    /**
     * HasSavedToken: whether the token file exists, whatever it holds. Loading then fails with
     * anything but the missing-file error: even "{}" or text that is not JSON counts as saved.
     */
    function HasSavedToken(): (b: bool)
      reads this
      ensures b <==> LoadToken() != Err(TokenMissing(tokenPath))
    {
      tokenPath in tokenFiles
    }

    /** authenticate: the callback listener, the redirect URL, the wait, the exchange, the save. */
    method Authenticate(w: World) returns (r: Result<Token, AuthError>)
      requires config.Some?
      modifies this
      ensures Outcome(Snapshot(), r) == AuthenticateSpec(old(Snapshot()), tokenPath, w)
    {
      match w.flow.listen
      case Err(cause) =>
        r := Err(CallbackServerFailed(cause));
      case Ok(port) =>
        config := Some(config.value.(redirectUrl := RedirectFor(port)));
        match WaitOutcome(w.flow.event, w.flow.exchange)
        case Err(e) =>
          r := Err(e);
        case Ok(token) =>
          var saveErr := SaveToken(token, w.writeFailure);
          r := Ok(token);
    }

    /** GetToken. */
    method GetToken(w: World) returns (r: Result<Token, AuthError>)
      modifies this
      ensures Outcome(Snapshot(), r) == GetTokenSpec(old(Snapshot()), tokenPath, w)
    {
      if config.None? {
        var err := LoadCredentials(w.credentials);
        if err.Some? {
          return Err(err.value);
        }
      }
      var loaded := LoadToken();
      if loaded.Ok? {
        if w.valid(loaded.value) {
          return Ok(loaded.value);
        }
        if w.refresh.Some? {
          var saveErr := SaveToken(w.refresh.value, w.writeFailure);
          return Ok(w.refresh.value);
        }
      }
      r := Authenticate(w);
    }

    /** GetClient: a client carrying the token GetToken gives. */
    method GetClient(w: World) returns (r: Result<HttpClient, AuthError>)
      modifies this
      ensures var o := GetTokenSpec(old(Snapshot()), tokenPath, w);
        Snapshot() == o.state
        && (o.result.Err? ==> r == Err(o.result.error))
        && (o.result.Ok? ==> r == Ok(HttpClient(o.state.config.value, o.result.value)))
    {
      var token := GetToken(w);
      if token.Err? {
        return Err(token.error);
      }
      r := Ok(HttpClient(config.value, token.value));
    }
  }

  /** Two ClearToken calls in a row both succeed, and afterwards no token is saved. */
  method ClearTokenTwice(a: Authenticator, second: Option<string>) returns (e1: Option<AuthError>, e2: Option<AuthError>)
    modifies a
    ensures e1.None? && e2.None? && !a.HasSavedToken()
  {
    e1 := a.ClearToken(None);
    e2 := a.ClearToken(second);
  }
}
