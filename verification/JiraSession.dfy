/** The stateful half of the Jira SOAP adapter: the lazily established
    session and the public operations that go through it.

    A `Service` value is the adapter object: its configuration, the SOAP
    client handle and the login token (both unset until the first remote
    operation), and the log of every call made on the transport so far.
    The log is not part of the object being modelled; it is the observation
    the properties below are stated over. The transport itself is an
    `Environment`: for each kind of call, a function from the call history
    (ending with the call just made) to what the server answered, so any
    sequential server behaviour, faults included, is one `Environment`. */
module JiraSession {
  import opened Wrappers
  import JiraService

  type Token = string

  /** An issue as the server returns it; the adapter passes it through untouched. */
  datatype Issue = Issue(fields: map<string, string>)

  /** The comment structure `addComment` receives. */
  datatype Comment = Comment(body: string)

  /** A field update sent along with a workflow transition. */
  datatype FieldValue = FieldValue(id: string, values: seq<string>)

  /** Whatever the transport raised; the adapter catches nothing, so every
      fault reaches the caller unchanged. */
  datatype Fault = Fault(message: string)

  /** The constructor arguments, fixed for the lifetime of the adapter. */
  datatype Config = Config(
    soapClientClass: string,
    host: string,
    user: string,
    password: string,
    jql: string,
    wsdlUrl: string)

  /** One interaction with the transport. `NewSoapClient` is the dynamic
      `new $class(wsdl, ['trace' => true])`, which may itself fail; the others
      are the SOAP operations, each taking the (possibly unset) token first. */
  datatype Call =
    | NewSoapClient(className: string, wsdl: string, trace: bool)
    | Login(user: string, password: string)
    | GetIssuesFromJqlSearch(token: Option<Token>, jql: string, maxResults: int)
    | GetIssue(token: Option<Token>, key: string)
    | AddComment(token: Option<Token>, key: string, comment: Comment)
    | GetAvailableActions(token: Option<Token>, key: string)
    | ProgressWorkflowAction(token: Option<Token>, key: string, actionId: string, fields: seq<FieldValue>)

  /** The SOAP client object once constructed. */
  datatype SoapClient = SoapClient(className: string, wsdl: string)

  /** The server and the process around the adapter. Each transport field
      answers the call at the end of the history it is given. `formatDate`
      is PHP's `date('Y-m-d H:i', t)`, which depends on the time zone. */
  datatype Environment = Environment(
    newSoapClient: seq<Call> -> Result<(), Fault>,
    login: seq<Call> -> Result<Token, Fault>,
    search: seq<Call> -> Result<seq<Issue>, Fault>,
    issue: seq<Call> -> Result<Issue, Fault>,
    addComment: seq<Call> -> Result<(), Fault>,
    actions: seq<Call> -> Result<seq<JiraService.Action>, Fault>,
    progress: seq<Call> -> Result<(), Fault>,
    formatDate: int -> string)

  /** The adapter object together with the log of its transport calls. */
  datatype Service = Service(
    config: Config,
    soapClient: Option<SoapClient>,
    token: Option<Token>,
    calls: seq<Call>)

  /** The adapter after an operation, and what the operation returned or raised. */
  datatype Step<T> = Step(service: Service, result: Result<T, Fault>)

  // ---------------------------------------------------------------------
  // Counting calls in the log

  predicate IsLogin(c: Call) {
    c.Login?
  }

  predicate IsProgress(c: Call) {
    c.ProgressWorkflowAction?
  }

  function Count(calls: seq<Call>, p: Call -> bool): nat {
    if |calls| == 0 then 0
    else Count(calls[..|calls| - 1], p) + (if p(calls[|calls| - 1]) then 1 else 0)
  }

  /** Logging one more call raises the count by one exactly when it is of the counted kind. */
  lemma CountAppend(calls: seq<Call>, c: Call, p: Call -> bool)
    ensures Count(calls + [c], p) == Count(calls, p) + (if p(c) then 1 else 0)
  {
  }

  // ---------------------------------------------------------------------
  // The session invariant

  /** What every logged call looks like: the client is built from the
      configured class and `host . wsdlUrl` with tracing on, login uses the
      configured credentials, and every search asks for `MAX_ISSUES`
      results with a query that starts with the configured JQL. */
  predicate Conforms(config: Config, c: Call) {
    && (c.NewSoapClient? ==>
          c.className == config.soapClientClass && c.wsdl == config.host + config.wsdlUrl && c.trace)
    && (c.Login? ==> c.user == config.user && c.password == config.password)
    && (c.GetIssuesFromJqlSearch? ==>
          c.maxResults == JiraService.MAX_ISSUES && config.jql <= c.jql)
  }

  /** The invariant of the adapter: the class name is rooted, exactly one
      login has been attempted once a client exists and none before, a token
      exists only with a client, and every logged call conforms. */
  predicate Valid(s: Service) {
    && JiraService.IsRooted(s.config.soapClientClass)
    && Count(s.calls, IsLogin) == (if s.soapClient.Some? then 1 else 0)
    && (s.token.Some? ==> s.soapClient.Some?)
    && forall i :: 0 <= i < |s.calls| ==> Conforms(s.config, s.calls[i])
  }

  /** The log after one more call. */
  function Record(s: Service, c: Call): Service {
    s.(calls := s.calls + [c])
  }

  /** Logging a conforming call other than a login keeps the invariant. */
  lemma RecordValid(s: Service, c: Call)
    requires !IsLogin(c) && Conforms(s.config, c)
    ensures Valid(s) ==> Valid(Record(s, c))
  {
  }

  // ---------------------------------------------------------------------
  // Construction and connection

  /** `__construct`: stores the arguments, rooting the SOAP client class
      name; no client, no token and no remote call yet. */
  function New(soapClientClass: string, host: string, user: string, password: string,
               jql: string, wsdlUrl: string): (s: Service)
    ensures Valid(s)
    ensures s.soapClient.None? && s.token.None? && s.calls == []
    ensures s.config.host == host && s.config.jql == jql && s.config.wsdlUrl == wsdlUrl
    ensures s.config.user == user && s.config.password == password
    ensures JiraService.IsRooted(soapClientClass) ==> s.config.soapClientClass == soapClientClass
    ensures !JiraService.IsRooted(soapClientClass) ==> s.config.soapClientClass == "\\" + soapClientClass
  {
    var className := JiraService.NormaliseClassName(soapClientClass);
    assert className == "\\" + soapClientClass || className == soapClientClass;
    Service(Config(className, host, user, password, jql, wsdlUrl), None, None, [])
  }

  /** `connect`: nothing to do once a SOAP client exists. Otherwise build the
      client (which may fail, leaving nothing stored), store it, and only then
      log in, storing the token if the login succeeds. A failed login thus
      leaves the client in place and the token unset. */
  function Connect(s: Service, env: Environment): (r: Step<()>)
    ensures r.service.config == s.config && s.calls <= r.service.calls
    ensures s.soapClient.Some? ==> r == Step(s, Success(()))
    ensures s.soapClient.None? ==> |s.calls| < |r.service.calls| <= |s.calls| + 2
    ensures r.result.Success? ==> r.service.soapClient.Some?
    ensures s.soapClient.None? && r.result.Success? ==> r.service.token.Some?
    ensures r.service.soapClient.None? ==> r.result.Failure? && r.service.token == s.token
    ensures Valid(s) && r.result.Failure? ==> r.service.token.None?
    ensures s.soapClient.None? ==>
      var build := NewSoapClient(s.config.soapClientClass, s.config.host + s.config.wsdlUrl, true);
      var built := s.calls + [build];
      var logged := built + [Login(s.config.user, s.config.password)];
      && (env.newSoapClient(built).Failure? ==>
            r.service == s.(calls := built) && r.result == Failure(env.newSoapClient(built).error))
      && (env.newSoapClient(built).Success? ==>
            && r.service.soapClient.Some?
            && r.service.calls == logged
            && (env.login(logged).Failure? ==>
                  r.service.token == s.token && r.result == Failure(env.login(logged).error))
            && (env.login(logged).Success? ==>
                  r.service.token == Some(env.login(logged).value) && r.result.Success?))
    ensures Valid(s) ==> Valid(r.service)
  {
    if s.soapClient.Some? then Step(s, Success(()))
    else
      var cfg := s.config;
      var wsdl := cfg.host + cfg.wsdlUrl;
      var s1 := Record(s, NewSoapClient(cfg.soapClientClass, wsdl, true));
      RecordValid(s, NewSoapClient(cfg.soapClientClass, wsdl, true));
      match env.newSoapClient(s1.calls)
      case Failure(f) => Step(s1, Failure(f))
      case Success(_) =>
        var s2 := Record(s1.(soapClient := Some(SoapClient(cfg.soapClientClass, wsdl))),
                         Login(cfg.user, cfg.password));
        CountAppend(s1.calls, Login(cfg.user, cfg.password), IsLogin);
        match env.login(s2.calls)
        case Failure(f) => Step(s2, Failure(f))
        case Success(t) => Step(s2.(token := Some(t)), Success(()))
  }

  /** Connecting twice performs no more transport calls than connecting once
      and, once a client exists, the log holds exactly one login. */
  lemma ConnectIdempotent(s: Service, env: Environment)
    requires Valid(s)
    ensures var c := Connect(s, env);
      c.service.soapClient.Some? ==>
        Connect(c.service, env) == Step(c.service, Success(())) && Count(c.service.calls, IsLogin) == 1
  {
  }

  // ---------------------------------------------------------------------
  // Public operations

  /** `fetchIssues`: after connecting, one search with the base query (plus
      the `updated >` clause when a timestamp is given) and the fixed
      `MAX_ISSUES` ceiling; the server's answer is returned as it is. */
  function FetchIssues(s: Service, env: Environment, timestamp: Option<int>): (r: Step<seq<Issue>>)
    ensures r.service.config == s.config && s.calls <= r.service.calls
    ensures s.soapClient.Some? ==>
      r.service == Record(s, GetIssuesFromJqlSearch(
        s.token, JiraService.GetJql(s.config.jql, timestamp, env.formatDate), JiraService.MAX_ISSUES))
    ensures r.result.Success? ==>
      && r.service.soapClient.Some?
      && |s.calls| < |r.service.calls|
      && r.service.calls[|r.service.calls| - 1] == GetIssuesFromJqlSearch(
           r.service.token, JiraService.GetJql(s.config.jql, timestamp, env.formatDate), JiraService.MAX_ISSUES)
      && r.result == env.search(r.service.calls)
    ensures Connect(s, env).result.Failure? ==>
      r.service == Connect(s, env).service && r.result == Failure(Connect(s, env).result.error)
    ensures Connect(s, env).result.Success? ==>
      && r.service == Record(Connect(s, env).service, GetIssuesFromJqlSearch(
           Connect(s, env).service.token, JiraService.GetJql(s.config.jql, timestamp, env.formatDate),
           JiraService.MAX_ISSUES))
      && r.result == env.search(r.service.calls)
    ensures Valid(s) ==> Valid(r.service)
  {
    var c := Connect(s, env);
    if c.result.Failure? then Step(c.service, Failure(c.result.error))
    else
      var jql := JiraService.GetJql(s.config.jql, timestamp, env.formatDate);
      var call := GetIssuesFromJqlSearch(c.service.token, jql, JiraService.MAX_ISSUES);
      var s1 := Record(c.service, call);
      RecordValid(c.service, call);
      Step(s1, env.search(s1.calls))
  }

  /** `fetchIssue`: after connecting, one `getIssue` call for the key; the
      server's answer is returned as it is. */
  function FetchIssue(s: Service, env: Environment, id: string): (r: Step<Issue>)
    ensures r.service.config == s.config && s.calls <= r.service.calls
    ensures s.soapClient.Some? ==> r.service == Record(s, GetIssue(s.token, id))
    ensures r.result.Success? ==>
      && r.service.soapClient.Some?
      && |s.calls| < |r.service.calls|
      && r.service.calls[|r.service.calls| - 1] == GetIssue(r.service.token, id)
      && r.result == env.issue(r.service.calls)
    ensures Connect(s, env).result.Failure? ==>
      r.service == Connect(s, env).service && r.result == Failure(Connect(s, env).result.error)
    ensures Connect(s, env).result.Success? ==>
      && r.service == Record(Connect(s, env).service, GetIssue(Connect(s, env).service.token, id))
      && r.result == env.issue(r.service.calls)
    ensures Valid(s) ==> Valid(r.service)
  {
    var c := Connect(s, env);
    if c.result.Failure? then Step(c.service, Failure(c.result.error))
    else
      var s1 := Record(c.service, GetIssue(c.service.token, id));
      RecordValid(c.service, GetIssue(c.service.token, id));
      Step(s1, env.issue(s1.calls))
  }

  /** `postComment`: after connecting, one `addComment` call carrying a
      comment whose body is exactly the given text. */
  function PostComment(s: Service, env: Environment, id: string, body: string): (r: Step<()>)
    ensures r.service.config == s.config && s.calls <= r.service.calls
    ensures s.soapClient.Some? ==> r.service == Record(s, AddComment(s.token, id, Comment(body)))
    ensures r.result.Success? ==>
      && r.service.soapClient.Some?
      && |s.calls| < |r.service.calls|
      && r.service.calls[|r.service.calls| - 1] == AddComment(r.service.token, id, Comment(body))
    ensures Connect(s, env).result.Failure? ==>
      r.service == Connect(s, env).service && r.result == Failure(Connect(s, env).result.error)
    ensures Connect(s, env).result.Success? ==>
      && r.service == Record(Connect(s, env).service,
                             AddComment(Connect(s, env).service.token, id, Comment(body)))
      && r.result == env.addComment(r.service.calls)
    ensures Valid(s) ==> Valid(r.service)
  {
    var c := Connect(s, env);
    if c.result.Failure? then Step(c.service, Failure(c.result.error))
    else
      var call := AddComment(c.service.token, id, Comment(body));
      var s1 := Record(c.service, call);
      RecordValid(c.service, call);
      Step(s1, env.addComment(s1.calls))
  }

  /** `getReopenActionId`: one `getAvailableActions` call on the existing
      client, then the first action whose name mentions "reopen".
      `reopenIssue` only calls it after `connect`, so a client always exists. */
  function GetReopenActionId(s: Service, env: Environment, id: string): (r: Step<Option<string>>)
    requires s.soapClient.Some?
    ensures r.service == Record(s, GetAvailableActions(s.token, id))
    ensures r.result.Failure? <==> env.actions(r.service.calls).Failure?
    ensures r.result.Failure? ==> r.result.error == env.actions(r.service.calls).error
    ensures r.result.Success? ==>
      r.result.value == JiraService.FirstReopenAction(env.actions(r.service.calls).value)
    ensures Valid(s) ==> Valid(r.service)
  {
    var call := GetAvailableActions(s.token, id);
    var s1 := Record(s, call);
    RecordValid(s, call);
    match env.actions(s1.calls)
    case Failure(f) => Step(s1, Failure(f))
    case Success(actions) => Step(s1, Success(JiraService.FirstReopenAction(actions)))
  }

  /** `reopenIssue`: after connecting, look up the reopen action; when there
      is one, progress the issue through it with no field updates; when there
      is none, do nothing more and report no error. */
  function ReopenIssue(s: Service, env: Environment, id: string): (r: Step<()>)
    ensures r.service.config == s.config && s.calls <= r.service.calls
    ensures s.soapClient.Some? ==> r.service.soapClient == s.soapClient && r.service.token == s.token
    ensures Connect(s, env).result.Failure? ==>
      r.service == Connect(s, env).service && r.result == Failure(Connect(s, env).result.error)
    ensures Connect(s, env).result.Success? ==>
      && r.service.soapClient == Connect(s, env).service.soapClient
      && r.service.token == Connect(s, env).service.token
    ensures Valid(s) ==> Valid(r.service)
  {
    var c := Connect(s, env);
    if c.result.Failure? then Step(c.service, Failure(c.result.error))
    else
      var a := GetReopenActionId(c.service, env, id);
      if a.result.Failure? then Step(a.service, Failure(a.result.error))
      else if a.result.value.None? then Step(a.service, Success(()))
      else
        var call := ProgressWorkflowAction(c.service.token, id, a.result.value.value, []);
        RecordValid(a.service, call);
        var s1 := Record(a.service, call);
        Step(s1, env.progress(s1.calls))
  }

  /** What `reopenIssue` does once connected: after listing the actions it
      progresses the issue exactly once, through the first reopen action,
      when there is one; when there is none it stops without error; and a
      fault while listing is raised with nothing more done. */
  lemma ReopenIssueOutcome(s: Service, env: Environment, id: string)
    requires Connect(s, env).result.Success?
    ensures var c := Connect(s, env).service;
      var listed := c.calls + [GetAvailableActions(c.token, id)];
      var r := ReopenIssue(s, env, id);
      && r.service.soapClient == c.soapClient && r.service.token == c.token
      && (env.actions(listed).Failure? ==>
            r.service.calls == listed && r.result == Failure(env.actions(listed).error))
      && (env.actions(listed).Success? ==>
            var found := JiraService.FirstReopenAction(env.actions(listed).value);
            && Count(r.service.calls, IsProgress) == Count(c.calls, IsProgress) + (if found.Some? then 1 else 0)
            && (found.None? ==> r.service.calls == listed && r.result == Success(()))
            && (found.Some? ==>
                  && r.service.calls == listed + [ProgressWorkflowAction(c.token, id, found.value, [])]
                  && r.result == env.progress(r.service.calls)))
  {
  }

  // ---------------------------------------------------------------------
  // Sequences of operations

  /** A call to one of the public operations that reach the transport. */
  datatype Operation =
    | FetchIssuesOp(timestamp: Option<int>)
    | FetchIssueOp(id: string)
    | PostCommentOp(id: string, body: string)
    | ReopenIssueOp(id: string)

  /** The adapter after one operation, whether it returned or raised. */
  function Apply(s: Service, env: Environment, op: Operation): (r: Service)
    ensures r.config == s.config && s.calls <= r.calls
    ensures s.soapClient.Some? ==> r.soapClient == s.soapClient && r.token == s.token
    ensures Valid(s) ==> Valid(r)
  {
    match op
    case FetchIssuesOp(t) => FetchIssues(s, env, t).service
    case FetchIssueOp(id) => FetchIssue(s, env, id).service
    case PostCommentOp(id, body) => PostComment(s, env, id, body).service
    case ReopenIssueOp(id) => ReopenIssue(s, env, id).service
  }

  /** The adapter after a sequence of operations, each performed on the
      object the previous one left behind. */
  function Run(s: Service, env: Environment, ops: seq<Operation>): Service
    decreases |ops|
  {
    if |ops| == 0 then s else Run(Apply(s, env, ops[0]), env, ops[1..])
  }

  /** Every sequence of operations keeps the invariant. */
  lemma {:induction false} RunValid(s: Service, env: Environment, ops: seq<Operation>)
    requires Valid(s)
    ensures Valid(Run(s, env, ops))
    ensures Run(s, env, ops).config == s.config
    decreases |ops|
  {
    if |ops| > 0 {
      RunValid(Apply(s, env, ops[0]), env, ops[1..]);
    }
  }

  /** Once a client exists, no sequence of operations replaces it or its
      token: in particular a failed login is never retried. */
  lemma {:induction false} RunKeepsSession(s: Service, env: Environment, ops: seq<Operation>)
    requires s.soapClient.Some?
    ensures Run(s, env, ops).soapClient == s.soapClient
    ensures Run(s, env, ops).token == s.token
    decreases |ops|
  {
    if |ops| > 0 {
      RunKeepsSession(Apply(s, env, ops[0]), env, ops[1..]);
    }
  }

  /** Over any sequence of operations on a new adapter, and whatever the
      server answers, login is attempted at most once. */
  lemma LoginAtMostOnce(config: Config, env: Environment, ops: seq<Operation>)
    ensures var s := New(config.soapClientClass, config.host, config.user, config.password,
                         config.jql, config.wsdlUrl);
      Count(Run(s, env, ops).calls, IsLogin) <= 1
  {
    var s := New(config.soapClientClass, config.host, config.user, config.password,
                 config.jql, config.wsdlUrl);
    RunValid(s, env, ops);
  }

  /** Over any sequence of operations on a new adapter, every search asks
      for `MAX_ISSUES` results with a query that extends the configured one. */
  lemma EverySearchUsesCeiling(config: Config, env: Environment, ops: seq<Operation>)
    ensures var s := New(config.soapClientClass, config.host, config.user, config.password,
                         config.jql, config.wsdlUrl);
      var calls := Run(s, env, ops).calls;
      forall i :: 0 <= i < |calls| && calls[i].GetIssuesFromJqlSearch? ==>
        calls[i].maxResults == JiraService.MAX_ISSUES && config.jql <= calls[i].jql
  {
    var s := New(config.soapClientClass, config.host, config.user, config.password,
                 config.jql, config.wsdlUrl);
    RunValid(s, env, ops);
    var calls := Run(s, env, ops).calls;
    assert forall i :: 0 <= i < |calls| ==> Conforms(s.config, calls[i]);
  }

  /** After a login that failed, every later operation runs with the token
      unset and the log keeps its single login. */
  lemma FailedLoginNotRetried(s: Service, env: Environment, ops: seq<Operation>)
    requires Valid(s)
    requires Connect(s, env).result.Failure? && Connect(s, env).service.soapClient.Some?
    ensures var after := Run(Connect(s, env).service, env, ops);
      after.token.None? && Count(after.calls, IsLogin) == 1
  {
    var c := Connect(s, env).service;
    RunKeepsSession(c, env, ops);
    RunValid(c, env, ops);
  }
}
