/** The self-contained logic of the Jira SOAP adapter: normalising the SOAP
    client class name, mapping between browse URLs and issue keys, building
    the JQL query, and picking the "reopen" workflow action. Everything here
    is a pure function of the configuration and the arguments; the remote
    calls live in module JiraSession. */
module JiraService {
  import opened Wrappers
  import opened PhpStrings

  /** The result ceiling passed to every JQL search: the largest signed 32-bit integer. */
  const MAX_ISSUES: int := 2147483647

  /** The path segment between the host and an issue key in a browse URL. */
  const BROWSE: string := "/browse/"

  /** The case-folded word a workflow action's name must contain to count as "reopen". */
  const REOPEN: string := "reopen"

  /** A workflow transition available on an issue, as `getAvailableActions` reports it. */
  datatype Action = Action(id: string, name: string)

  // ---------------------------------------------------------------------
  // Constructor: SOAP client class name

  predicate IsRooted(className: string) {
    |className| > 0 && className[0] == '\\'
  }

  /** The constructor prefixes the class name with the root-namespace marker
      `\` unless its first character already is one. */
  function NormaliseClassName(className: string): (r: string)
    ensures IsRooted(r)
    ensures IsRooted(className) ==> r == className
    ensures !IsRooted(className) ==> r[1..] == className && |r| == |className| + 1
  {
    if Substr(className, 0, 1) != "\\" then "\\" + className else className
  }

  /** Normalising an already normalised name changes nothing. */
  lemma NormaliseIdempotent(className: string)
    ensures NormaliseClassName(NormaliseClassName(className)) == NormaliseClassName(className)
  {
  }

  // ---------------------------------------------------------------------
  // Browse URLs and issue keys

  /** `getUrl`: the browse URL of an issue. */
  function GetUrl(host: string, id: string): (r: string)
    ensures host + BROWSE <= r
    ensures |r| == |host| + |BROWSE| + |id|
    ensures r[|host| + |BROWSE|..] == id
  {
    host + BROWSE + id
  }

  /** `getIssue`: the issue key at the end of a browse URL of this host, or
      `None` for any other resource. */
  function GetIssue(host: string, resource: string): (r: Option<string>)
    ensures r.Some? <==> host + BROWSE <= resource
    ensures r.Some? ==> resource == host + BROWSE + r.value
  {
    var url := host + BROWSE;
    StrncmpPrefix(resource, url);
    if Strncmp(resource, url, |url|) == 0 then
      var key := SubstrFrom(resource, |url|);
      assert resource[..|url|] == url;
      Some(key)
    else
      None
  }

  /** `urlMatches`: does the URL point into this Jira host? */
  function UrlMatches(host: string, url: string): (b: bool)
    ensures b <==> host <= url
  {
    StrncmpPrefix(url, host);
    Strncmp(url, host, |host|) == 0
  }

  /** Every key survives the trip through its URL, the empty key included. */
  lemma GetIssueOfGetUrl(host: string, id: string)
    ensures GetIssue(host, GetUrl(host, id)) == Some(id)
  {
  }

  /** Every resource `getIssue` accepts is the URL of the key it returns. */
  lemma GetUrlOfGetIssue(host: string, resource: string)
    requires GetIssue(host, resource).Some?
    ensures GetUrl(host, GetIssue(host, resource).value) == resource
  {
  }

  /** Distinct keys have distinct URLs. */
  lemma GetUrlInjective(host: string, a: string, b: string)
    requires GetUrl(host, a) == GetUrl(host, b)
    ensures a == b
  {
  }

  /** A URL is a prefix extension of its host, so it always matches it. */
  lemma UrlMatchesGetUrl(host: string, id: string)
    ensures UrlMatches(host, GetUrl(host, id))
  {
  }

  /** Whatever `getIssue` accepts, `urlMatches` accepts too. */
  lemma GetIssueImpliesUrlMatches(host: string, resource: string)
    requires GetIssue(host, resource).Some?
    ensures UrlMatches(host, resource)
  {
  }

  // ---------------------------------------------------------------------
  // JQL

  /** The clause appended to the base query for issues updated since a time. */
  function UpdatedSince(formatted: string): string {
    " AND updated > '" + formatted + "'"
  }

  /** `getJql`: the configured base query, extended by an `updated >` clause
      when a timestamp is given. `formatDate` stands for PHP's
      `date('Y-m-d H:i', t)`, which depends on the process time zone. */
  function GetJql(jql: string, timestamp: Option<int>, formatDate: int -> string): (r: string)
    ensures jql <= r
    ensures r == jql <==> timestamp.None?
    ensures timestamp.Some? ==> r[|jql|..] == UpdatedSince(formatDate(timestamp.value))
  {
    match timestamp
    case None => jql
    case Some(t) =>
      var r := jql + UpdatedSince(formatDate(t));
      assert r[..|jql|] == jql;
      r
  }

  /** A timestamped query is the untimed one followed by the `updated >` clause. */
  lemma GetJqlExtendsBase(jql: string, t: int, formatDate: int -> string)
    ensures GetJql(jql, Some(t), formatDate)
         == GetJql(jql, None, formatDate) + " AND updated > '" + formatDate(t) + "'"
  {
  }

  // ---------------------------------------------------------------------
  // Reopen action

  /** The name test of `getReopenActionId`: after `strtolower`, `strpos` finds
      "reopen" somewhere in the name. */
  predicate MentionsReopen(name: string) {
    StrPos(StrToLower(name), REOPEN).Some?
  }

  /** Position `i` holds the first action whose name mentions "reopen". */
  ghost predicate IsFirstReopen(actions: seq<Action>, i: int) {
    && 0 <= i < |actions|
    && MentionsReopen(actions[i].name)
    && forall j :: 0 <= j < i ==> !MentionsReopen(actions[j].name)
  }

  /** `getReopenActionId` after the actions were fetched: scan the actions in
      the order the server gave them and return the id of the first one
      whose name mentions "reopen", or `None` when none does. */
  function FirstReopenAction(actions: seq<Action>): (r: Option<string>)
    ensures r.None? <==> forall i :: 0 <= i < |actions| ==> !MentionsReopen(actions[i].name)
    ensures r.Some? ==> exists i :: IsFirstReopen(actions, i) && actions[i].id == r.value
  {
    if |actions| == 0 then None
    else if MentionsReopen(actions[0].name) then
      assert IsFirstReopen(actions, 0);
      Some(actions[0].id)
    else
      var rest := FirstReopenAction(actions[1..]);
      if rest.Some? then
        assert exists i :: IsFirstReopen(actions, i) && actions[i].id == rest.value by {
          var i :| IsFirstReopen(actions[1..], i) && actions[1..][i].id == rest.value;
          assert IsFirstReopen(actions, i + 1);
        }
        rest
      else
        assert forall i :: 1 <= i < |actions| ==> actions[i] == actions[1..][i - 1];
        rest
  }

  /** From position `k`, the name has six characters that lower-case, one
      by one, to "reopen", whatever their case. */
  predicate ReopenAt(name: string, k: int) {
    && 0 <= k && k + |REOPEN| <= |name|
    && forall j :: 0 <= j < |REOPEN| ==> LowerAscii(name[k + j]) == REOPEN[j]
  }

  /** The name test in terms of the raw name: it holds exactly when some six
      consecutive characters spell "reopen" in any mix of ASCII case. */
  lemma {:induction false} MentionsReopenCharwise(name: string)
    ensures MentionsReopen(name) <==> exists k :: ReopenAt(name, k)
  {
    var lower := StrToLower(name);
    forall k | 0 <= k && k + |REOPEN| <= |name|
      ensures OccursAt(lower, REOPEN, k) <==> ReopenAt(name, k)
    {
      var window := lower[k..k + |REOPEN|];
      assert forall j :: 0 <= j < |window| ==> window[j] == LowerAscii(name[k + j]);
    }
  }

  /** The first matching action wins, whatever follows it. */
  lemma FirstMatchWins(before: seq<Action>, a: Action, after: seq<Action>)
    requires forall i :: 0 <= i < |before| ==> !MentionsReopen(before[i].name)
    requires MentionsReopen(a.name)
    ensures FirstReopenAction(before + [a] + after) == Some(a.id)
  {
    var s := before + [a] + after;
    assert s[|before|] == a;
    var r := FirstReopenAction(s);
    assert forall j :: 0 <= j < |before| ==> s[j] == before[j];
    var i :| IsFirstReopen(s, i) && s[i].id == r.value;
  }

  /** With "Close", "Reopen Issue" and "Reopen for QA" on offer, the second
      action is chosen: case is ignored and the later match is never looked at. */
  lemma ReopenExample()
    ensures FirstReopenAction([Action("1", "Close"), Action("2", "Reopen Issue"),
                               Action("3", "Reopen for QA")]) == Some("2")
  {
    FirstMatchWins([Action("1", "Close")], Action("2", "Reopen Issue"), [Action("3", "Reopen for QA")]);
  }
}
