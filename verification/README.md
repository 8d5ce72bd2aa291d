# Jira SOAP adapter — Dafny model

This project models `JiraService`, the class of the Behat Jira extension that
talks to a Jira server through Jira's legacy SOAP interface. The class
authenticates lazily, runs JQL searches, fetches single issues, posts
comments and reopens issues through a workflow transition. It also maps
between browse URLs and issue keys.

Most of the class only forwards calls to a SOAP client object. The logic on
top of that forwarding is what the model states and proves:

- **Constructor class-name normalisation** (`JiraService.NormaliseClassName`).
  The SOAP client class name gets a leading `\` unless it already has one.
- **URL ↔ issue key** (`GetUrl`, `GetIssue`, `UrlMatches`). These are prefix and
  concatenation laws over strings. The PHP built-in `strncmp` is modelled
  with its binary-safe semantics (`PhpStrings.Strncmp`). Its zero test is
  proved to be exactly the prefix test.
- **JQL construction** (`GetJql`). The configured query comes back verbatim,
  or extended with an `updated >` clause. PHP's `date()` is a parameter.
- **Reopen-action selection** (`FirstReopenAction`, `GetReopenActionId`,
  `ReopenIssue`). This is a first-match scan using `strtolower` and `strpos`.
  When nothing matches, the operation is a silent no-op.
- **Lazy session** (`JiraSession`). A `Service` value holds the configuration,
  the SOAP client (unset until first use), the token and a log of every call
  made on the transport. The transport is an `Environment`: for each kind of
  call, a function from the call history to the server's answer or fault.
  The client is stored before `login` is called, so a failed login is never
  retried. Later calls go out with the token unset. A failure of the client
  construction itself stores nothing, so the next operation builds the client
  again. Over any sequence of
  operations, login is attempted at most once. Every search passes
  `MAX_ISSUES` = 2147483647.

Modules: `Wrappers` (Option, Result), `PhpStrings` (the PHP string built-ins
the class uses), `JiraService` (the pure functions), `JiraSession` (the
stateful operations and the properties over sequences of operations).

## Model

| member | source | states |
|---|---|---|
| PhpStrings.MemCmp | src/VIPSoft/JiraExtension/Service/JiraService.php:178 | the byte comparison under `strncmp` is zero exactly when the compared ranges are equal |
| PhpStrings.Strncmp | src/VIPSoft/JiraExtension/Service/JiraService.php:178 | `strncmp(a, b, n)` is zero exactly when the first `n` characters of both (or all of the shorter one) coincide |
| PhpStrings.StrncmpPrefix | src/VIPSoft/JiraExtension/Service/JiraService.php:204 | `strncmp(s, p, strlen(p)) === 0` holds exactly when `p` is a prefix of `s` |
| PhpStrings.SubstrFrom | src/VIPSoft/JiraExtension/Service/JiraService.php:179 | `substr(s, n)` is the rest of `s` after its first `n` characters, and "" past the end |
| PhpStrings.Substr | src/VIPSoft/JiraExtension/Service/JiraService.php:38 | `substr(s, start, len)` holds the next `len` characters of `s` from `start`, fewer when `s` ends first, and none when `start` lies past the end |
| PhpStrings.StrPosFrom | src/VIPSoft/JiraExtension/Service/JiraService.php:143 | the search from position `i` returns an occurrence with none before it, or none when there is no occurrence at or after `i` |
| PhpStrings.StrPos | src/VIPSoft/JiraExtension/Service/JiraService.php:143 | `strpos` finds something exactly when the needle occurs, and then returns its first occurrence |
| PhpStrings.StrToLower | src/VIPSoft/JiraExtension/Service/JiraService.php:143 | `strtolower` keeps the length, turns each ASCII capital into its small letter, leaves no ASCII capital and keeps every other character |
| JiraService.NormaliseClassName | src/VIPSoft/JiraExtension/Service/JiraService.php:38-42 | the stored class name starts with `\`; a name already starting with `\` is kept, any other gets exactly one `\` in front |
| JiraService.NormaliseIdempotent | src/VIPSoft/JiraExtension/Service/JiraService.php:38-42 | normalising twice gives the same name as normalising once |
| JiraService.GetUrl | src/VIPSoft/JiraExtension/Service/JiraService.php:190-193 | the URL starts with `host/browse/` and the key is exactly what follows |
| JiraService.GetIssue | src/VIPSoft/JiraExtension/Service/JiraService.php:174-181 | a key is returned exactly when `host/browse/` is a prefix of the resource, and then the resource is `host/browse/` followed by the key |
| JiraService.UrlMatches | src/VIPSoft/JiraExtension/Service/JiraService.php:202-205 | true exactly when the host is a prefix of the URL |
| JiraService.GetIssueOfGetUrl | src/VIPSoft/JiraExtension/Service/JiraService.php:174-193 | reading the key back from an issue's URL gives that key; this holds for every key, the empty key included, with no restriction on what the key contains |
| JiraService.GetUrlOfGetIssue | src/VIPSoft/JiraExtension/Service/JiraService.php:176-192 | a resource `getIssue` accepts is the URL of the key it returned |
| JiraService.GetUrlInjective | src/VIPSoft/JiraExtension/Service/JiraService.php:190-193 | different keys get different URLs |
| JiraService.UrlMatchesGetUrl | src/VIPSoft/JiraExtension/Service/JiraService.php:190-205 | every issue URL of the host matches the host |
| JiraService.GetIssueImpliesUrlMatches | src/VIPSoft/JiraExtension/Service/JiraService.php:174-205 | whenever `getIssue` finds a key, `urlMatches` holds for the same resource |
| JiraService.GetJql | src/VIPSoft/JiraExtension/Service/JiraService.php:72-79 | the base query is always a prefix of the result; the result equals the base query exactly when no timestamp is given; otherwise what follows is the `updated >` clause |
| JiraService.GetJqlExtendsBase | src/VIPSoft/JiraExtension/Service/JiraService.php:72-79 | the timestamped query is the untimed query followed by ` AND updated > '<date>'` |
| JiraService.FirstReopenAction | src/VIPSoft/JiraExtension/Service/JiraService.php:142-146 | nothing is found exactly when no action's lower-cased name contains "reopen"; otherwise the id of an action that matches with no earlier match |
| JiraService.MentionsReopenCharwise | src/VIPSoft/JiraExtension/Service/JiraService.php:143 | a name matches exactly when some six consecutive characters of the raw name spell "reopen" in any mix of ASCII case |
| JiraService.FirstMatchWins | src/VIPSoft/JiraExtension/Service/JiraService.php:142-146 | after non-matching actions, the first matching action is chosen whatever follows it |
| JiraService.ReopenExample | src/VIPSoft/JiraExtension/Service/JiraService.php:138-147 | among "Close", "Reopen Issue", "Reopen for QA", the action with id "2" is chosen |
| JiraSession.New | src/VIPSoft/JiraExtension/Service/JiraService.php:36-48 | a new adapter keeps every argument, roots the class name, has no client, no token and no calls, and satisfies the invariant |
| JiraSession.Connect | src/VIPSoft/JiraExtension/Service/JiraService.php:53-63 | with a client present nothing happens; otherwise the client is built from the configured class and `host . wsdlUrl`; a failed construction stores nothing and raises its fault, so the next operation builds again; a built client is stored before `login` is called; an accepted login stores the token the server answered; a failed login raises its fault and leaves the client stored and the token unset; the invariant is kept |
| JiraSession.ConnectIdempotent | src/VIPSoft/JiraExtension/Service/JiraService.php:53-63 | once a client exists a second connect makes no call, and the log holds exactly one login |
| JiraSession.FetchIssues | src/VIPSoft/JiraExtension/Service/JiraService.php:91-98 | a connect fault is raised with nothing more done; otherwise the adapter is exactly the connected one plus one search call carrying the token connect left, the built query and `MAX_ISSUES` (whether or not this call had to connect), and the server's answer, value or fault, is returned unchanged |
| JiraSession.FetchIssue | src/VIPSoft/JiraExtension/Service/JiraService.php:107-112 | a connect fault is raised with nothing more done; otherwise the adapter is exactly the connected one plus one `getIssue` call carrying the token connect left and the key, and the answer, value or fault, is returned unchanged |
| JiraSession.PostComment | src/VIPSoft/JiraExtension/Service/JiraService.php:120-129 | a connect fault is raised with nothing more done; otherwise the adapter is exactly the connected one plus one `addComment` call carrying the token connect left and a comment whose body is the given text, and the server's answer, success or fault, is returned unchanged |
| JiraSession.GetReopenActionId | src/VIPSoft/JiraExtension/Service/JiraService.php:138-147 | one `getAvailableActions` call; it fails exactly when that call fails, and otherwise returns the first reopen action |
| JiraSession.ReopenIssue | src/VIPSoft/JiraExtension/Service/JiraService.php:156-165 | the configuration is kept and the log only grows; a connect fault is raised with nothing more done; after a successful connect, client and token are the ones connect left (in particular the token `login` returned on a first call), and once a client exists they are left as they were; the invariant is kept |
| JiraSession.ReopenIssueOutcome | src/VIPSoft/JiraExtension/Service/JiraService.php:156-165 | once connected, client and token stay those connect left; after listing the actions: exactly one `progressWorkflowAction` with no fields when a reopen action exists, whose answer is returned; none and no error when none exists; a listing fault is raised with nothing more done |
| JiraSession.Apply | src/VIPSoft/JiraExtension/Service/JiraService.php:91-165 | every public operation keeps the configuration, only extends the log, never replaces an existing client or token, and keeps the invariant |
| JiraSession.RunValid | src/VIPSoft/JiraExtension/Service/JiraService.php:53-165 | every sequence of operations keeps the invariant and the configuration |
| JiraSession.RunKeepsSession | src/VIPSoft/JiraExtension/Service/JiraService.php:55-62 | once a client exists, no sequence of operations changes the client or the token |
| JiraSession.LoginAtMostOnce | src/VIPSoft/JiraExtension/Service/JiraService.php:53-63 | over any sequence of operations on a new adapter, whatever the server answers, at most one login is attempted |
| JiraSession.EverySearchUsesCeiling | src/VIPSoft/JiraExtension/Service/JiraService.php:91-98 | on a new adapter, every search ever made asks for `MAX_ISSUES` results with a query extending the configured one |
| JiraSession.FailedLoginNotRetried | src/VIPSoft/JiraExtension/Service/JiraService.php:55-62 | after a failed login, every later operation runs with the token unset and the log keeps its single login |

## Left out

- The SOAP transport and the dynamic `new $class(...)` (line 61) are foreign code. The model records each call in a log and takes the answers from an `Environment`. Issues are passed through untouched.
- `date('Y-m-d H:i', $timestamp)` (line 78) depends on the time zone. It is the `formatDate` field of the `Environment`.
- Remote errors are not mapped onto error kinds. The class catches nothing, so every fault is returned as the `Fault` the transport raised.
- Login faults are not re-mapped: the fault `login` raises reaches the caller, and the client stays stored.
- PHP version differences are not modelled. `substr` past the end and `strpos` with an empty needle follow PHP 8. `strtolower` follows PHP 8.2 and later, which lowercases ASCII letters only; earlier versions consulted the locale.
- The non-zero values of `strncmp` follow one `memcmp` convention (the difference of the first differing bytes). The class only tests the result against zero, and the zero case is exact.
- PHP's loose typing is not modelled. Action ids and names are strings; a null action id is never produced by the model.
- Concurrent use of one adapter is not modelled. The class has no guard around `connect`.
- The pure methods `getIssue`, `getUrl` and `urlMatches` never reach the transport. They are not `Operation`s of a run, because they leave the adapter unchanged.
- `$wsdlUrl` is stored in an undeclared property in the PHP class. The model treats it as an ordinary configuration field.
