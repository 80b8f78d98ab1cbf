/**
 What a redirect rule does, read off the rule itself: which hosts it answers, and how. The rules the reconciler
 writes (ops/cf/apply.ts, `toRedirectRule`) are proved to do what their redirects say.
 */
module RedirectAnswers {
  import opened Prelude
  import opened Strings
  import opened JsonTrees
  import opened Redirects

  // ---------------------------------------------------------------- reading an expression

  const HOST_TEST := "http.host eq \""

  /** The hosts of `http.host eq "a" or http.host eq "b"`, if the text is such a disjunction. */
  function HostsOfTests(text: string): Option<seq<string>> {
    if !StartsWith(text, HOST_TEST) then None
    else
      var quoted := text[|HOST_TEST|..];
      var close := IndexOf(quoted, '"');
      if close == -1 then None
      else
        var host, rest := quoted[..close], quoted[close + 1..];
        if rest == "" then Some([host])
        else if !StartsWith(rest, " or ") then None
        else
          match HostsOfTests(rest[4..])
          case Some(more) => Some([host] + more)
          case None => None
  }

  /** An expression in parentheses; `()` selects no host. */
  function HostsOf(expression: string): Option<seq<string>> {
    var n := |expression|;
    if n < 2 || expression[0] != '(' || expression[n - 1] != ')' then None
    else if n == 2 then Some([])
    else HostsOfTests(expression[1..n - 1])
  }

  lemma Dropped(prefix: string, text: string)
    ensures StartsWith(prefix + text, prefix) && (prefix + text)[|prefix|..] == text
  {
  }

  lemma QuotedHost(host: string, rest: string)
    requires '"' !in host
    ensures
      var quoted := host + "\"" + rest;
      && IndexOf(quoted, '"') == |host|
      && quoted[..|host|] == host && quoted[|host| + 1..] == rest
  {
    IndexAfter(host, '"', rest);
  }

  lemma LastTest(host: string)
    requires '"' !in host
    ensures HostsOfTests(HOST_TEST + (host + "\"")) == Some([host])
  {
    Dropped(HOST_TEST, host + "\"");
    QuotedHost(host, "");
    assert host + "\"" + "" == host + "\"";
  }

  lemma FirstTest(host: string, more: string)
    requires '"' !in host && HostsOfTests(more).Some?
    ensures HostsOfTests(HOST_TEST + (host + "\"" + (" or " + more))) == Some([host] + HostsOfTests(more).value)
  {
    Dropped(HOST_TEST, host + "\"" + (" or " + more));
    QuotedHost(host, " or " + more);
    Dropped(" or ", more);
    assert " or " + more != "";
  }

  lemma TestsUnfold(hosts: seq<string>)
    requires hosts != []
    ensures HostTests(hosts) ==
            TEST + if |hosts| == 1 then hosts[0] + "\"" else hosts[0] + "\"" + (" or " + HostTests(hosts[1..]))
  {
  }

  lemma {:induction false} TestsReadBack(hosts: seq<string>)
    requires QuoteFree(hosts) && hosts != []
    ensures HostsOfTests(HostTests(hosts)) == Some(hosts)
    decreases |hosts|
  {
    assert hosts == [hosts[0]] + hosts[1..];
    TestsUnfold(hosts);
    assert TEST == HOST_TEST;
    if |hosts| == 1 {
      LastTest(hosts[0]);
      assert hosts == [hosts[0]];
    } else {
      TestsReadBack(hosts[1..]);
      FirstTest(hosts[0], HostTests(hosts[1..]));
    }
  }

  lemma ExpressionReadsBack(hosts: seq<string>)
    requires QuoteFree(hosts)
    ensures HostsOf(HostExpression(hosts)) == Some(hosts)
  {
    var expression := HostExpression(hosts);
    assert expression[1..|expression| - 1] == HostTests(hosts);
    if hosts != [] {
      TestsReadBack(hosts);
    }
  }

  // ---------------------------------------------------------------- reading a rule

  datatype Response = Response(targetUrl: string, statusCode: int, preserveQueryString: bool)

  /** What a rule holds under a key, and what stands further down. */
  function Under(rule: Json, key: string): Tree
    requires rule.Obj?
  {
    Meaning(Get(rule.members, key))
  }

  function At(tree: Tree, path: seq<string>): Tree
    decreases |path|
  {
    if path == [] then tree
    else if tree.Node? && path[0] in tree.children then At(tree.children[path[0]], path[1..])
    else Leaf(Undefined)
  }

  predicate Selects(expression: Tree, host: string) {
    && expression.Leaf? && expression.json.Str?
    && var hosts := HostsOf(expression.json.s);
       hosts.Some? && host in hosts.value
  }

  /** The redirect parameters, complete or not at all. */
  function ResponseIn(parameters: Tree): Option<Response> {
    var target := At(parameters, ["from_value", "target_url", "value"]);
    var status := At(parameters, ["from_value", "status_code"]);
    var query := At(parameters, ["from_value", "preserve_query_string"]);
    if target.Leaf? && target.json.Str? && status.Leaf? && status.json.Num? && query.Leaf? && query.json.Bool?
    then Some(Response(target.json.s, status.json.n, query.json.b))
    else None
  }

  /** A rule's answer to a request for `host`: it must be enabled, redirect, and select the host. */
  function Answer(rule: Json, host: string): Option<Response>
    requires rule.Obj?
  {
    if Under(rule, "enabled") == Leaf(Bool(true)) && Under(rule, "action") == Leaf(Str("redirect"))
       && Selects(Under(rule, "expression"), host)
    then ResponseIn(Under(rule, "action_parameters"))
    else None
  }

  lemma MembersRead(r: Redirect)
    ensures Get(ToRule(r).members, "expression") == Str(HostExpression(r.hosts))
    ensures Get(ToRule(r).members, "action") == Str("redirect")
    ensures Get(ToRule(r).members, "action_parameters") == Parameters(r)
    ensures Get(ToRule(r).members, "enabled") == Bool(true)
  {
    ToRuleIsDesired(r);
    GetMember(ToRule(r).members, 2);
    GetMember(ToRule(r).members, 3);
    GetMember(ToRule(r).members, 4);
    GetMember(ToRule(r).members, 5);
  }

  lemma AtTwo(tree: Tree, a: string, b: string)
    requires tree.Node? && a in tree.children
    ensures At(tree, [a, b]) == At(tree.children[a], [b])
    ensures tree.children[a].Node? && b in tree.children[a].children ==>
              At(tree, [a, b]) == tree.children[a].children[b]
  {
    assert [a, b][1..] == [b];
    assert [b][1..] == [];
  }

  lemma AtThree(tree: Tree, a: string, b: string, c: string)
    requires tree.Node? && a in tree.children
    ensures At(tree, [a, b, c]) == At(tree.children[a], [b, c])
  {
    assert [a, b, c][1..] == [b, c];
  }

  lemma ParametersRead(r: Redirect)
    ensures ResponseIn(Meaning(Parameters(r))) ==
            Some(Response(r.targetUrl, r.statusCode, r.preserveQueryString))
  {
    var tree := Meaning(Parameters(r));
    MemberMeaning(Parameters(r).members, 0);
    assert tree.children["from_value"] == Meaning(FromValue(r));
    FromValueReads(r);
    AtThree(tree, "from_value", "target_url", "value");
    AtTwo(Meaning(FromValue(r)), "target_url", "value");
    AtTwo(tree, "from_value", "status_code");
    AtTwo(tree, "from_value", "preserve_query_string");
  }

  /** The rule of a redirect answers exactly its hosts, with its target, status and query flag. */
  lemma RuleAnswersItsHosts(r: Redirect, host: string)
    requires QuoteFree(r.hosts)
    ensures Answer(ToRule(r), host) ==
            if host in r.hosts then Some(Response(r.targetUrl, r.statusCode, r.preserveQueryString)) else None
  {
    MembersRead(r);
    ExpressionReadsBack(r.hosts);
    ParametersRead(r);
  }

  lemma SameAnswers(a: Json, b: Json, host: string)
    requires a.Obj? && b.Obj? && SameButId(a, b)
    ensures Answer(a, host) == Answer(b, host)
  {
    assert Under(a, "enabled") == Under(b, "enabled") && Under(a, "action") == Under(b, "action");
    assert Under(a, "expression") == Under(b, "expression");
    assert Under(a, "action_parameters") == Under(b, "action_parameters");
  }

  lemma StandsForItsRedirect(rule: Json, r: Redirect, host: string)
    requires rule.Obj? && SameButId(rule, ToRule(r)) && QuoteFree(r.hosts)
    ensures Under(rule, "description") == Leaf(Str(r.description))
    ensures Answer(rule, host) ==
            if host in r.hosts then Some(Response(r.targetUrl, r.statusCode, r.preserveQueryString)) else None
  {
    SameAnswers(rule, ToRule(r), host);
    RuleAnswersItsHosts(r, host);
    ToRuleReads(r);
    assert Under(rule, "description") == Under(ToRule(r), "description");
  }

  /** And so does the zone: after a pass that applied, or found nothing to do, the rule that answers to a
      redirect's ref answers exactly the redirect's hosts, as it says, and bears its description; provided that
      redirects of one ref make one rule and the rule found for that ref, where there was one, hid nothing. */
  lemma ZoneAnswersAsConfigured(zone: Option<seq<Json>>, redirects: seq<Redirect>, after: seq<Json>, i: nat,
                                host: string)
    requires ZoneReceived(zone) && After(zone, ToRules(redirects), after) && i < |redirects|
    requires OneRuleARef(redirects) && QuoteFree(redirects[i].hosts)
    requires
      var found := FirstRule(RulesOf(zone), Str(redirects[i].ref));
      found.Some? ==> Parsed(found.value)
    ensures
      var r := redirects[i];
      && AllObjects(after)
      && var rule := FirstRule(after, Str(r.ref));
         && rule.Some? && HasId(rule.value)
         && Under(rule.value, "description") == Leaf(Str(r.description))
         && Answer(rule.value, host) ==
            if host in r.hosts then Some(Response(r.targetUrl, r.statusCode, r.preserveQueryString)) else None
  {
    var r := redirects[i];
    RulesAreDesired(redirects);
    OneRuleIsConsistent(redirects);
    AppliedIsUpToDate(zone, ToRules(redirects), after, i);
    StandsForItsRedirect(FirstRule(after, Str(r.ref)).value, r, host);
  }
}
