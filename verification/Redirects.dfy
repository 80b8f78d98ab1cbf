/**
 The Cloudflare redirect reconciler (ops/cf/apply.ts): `reconcileRedirectRuleset` and `toRedirectRule`.
 */
module Redirects {
  import opened Prelude
  import opened JsonTrees

  // ---------------------------------------------------------------- the merge

  /** A rule the server sent: an object out of JSON text. */
  predicate Received(rule: Json) {
    rule.Obj? && Proper(rule) && Defined(rule)
  }

  /** One none of whose members hides another. */
  predicate Parsed(rule: Json) {
    Received(rule) && TellsAll(rule)
  }

  /** A rule built by `toRedirectRule`: named, and without an id. */
  predicate Desired(rule: Json) {
    Parsed(rule) && !HasKey(rule.members, "id") && RefOf(rule).Str?
  }

  /** `rule.ref`; like `id` it is inherited from nowhere. */
  function RefOf(rule: Json): (ref: Json)
    requires rule.Obj?
    ensures ref == Get(rule.members, "ref")
  {
    ReadOwn(rule.members, "ref");
    Read(rule.members, "ref")
  }

  lemma ReadOwn(members: seq<Member>, key: string)
    requires Inherited(key) == Undefined
    ensures Read(members, key) == Get(members, key)
  {
    GetMissing(members, key);
  }

  /** `{ ...desired, id: current.id }`. */
  function WithId(desired: Json, current: Json): (next: Json)
    requires desired.Obj? && current.Obj?
    ensures next == Obj(desired.members + [Member("id", Get(current.members, "id"))])
  {
    ReadOwn(current.members, "id");
    Obj(desired.members + [Member("id", Read(current.members, "id"))])
  }

  predicate AllObjects(rules: seq<Json>) {
    forall i :: 0 <= i < |rules| ==> rules[i].Obj?
  }

  function FindIndex(rules: seq<Json>, ref: Json): (index: int)
    requires AllObjects(rules)
    ensures -1 <= index < |rules|
    ensures index >= 0 ==> RefOf(rules[index]) == ref
    ensures forall i :: 0 <= i < (if index < 0 then |rules| else index) ==> RefOf(rules[i]) != ref
  {
    if rules == [] then -1
    else if RefOf(rules[0]) == ref then 0
    else
      var index := FindIndex(rules[1..], ref);
      assert forall i :: 0 < i < |rules| ==> rules[i] == rules[1..][i - 1];
      if index == -1 then -1 else index + 1
  }

  /** One turn of the loop: the rules after it, and whether it changed them. */
  function MergeOne(rules: seq<Json>, desired: Json): (r: (seq<Json>, bool))
    requires AllObjects(rules) && desired.Obj?
    ensures AllObjects(r.0)
  {
    var index := FindIndex(rules, RefOf(desired));
    if index == -1 then (rules + [desired], true)
    else
      var next := WithId(desired, rules[index]);
      if DeepEqual(rules[index], next) then (rules, false) else (rules[index := next], true)
  }

  function Merge(rules: seq<Json>, desired: seq<Json>): (r: (seq<Json>, bool))
    requires AllObjects(rules) && AllObjects(desired)
    ensures AllObjects(r.0)
    decreases |desired|
  {
    if desired == [] then (rules, false)
    else
      var first := MergeOne(rules, desired[0]);
      var rest := Merge(first.0, desired[1..]);
      (rest.0, first.1 || rest.1)
  }

  /** What a pass writes, if anything: the whole desired set where there is no ruleset yet, the merged
      rules where merging changed something. */
  function Pass(zone: Option<seq<Json>>, desired: seq<Json>): Option<seq<Json>>
    requires AllObjects(desired) && (zone.Some? ==> AllObjects(zone.value))
  {
    if zone.None? then Some(desired)
    else
      var merged := Merge(zone.value, desired);
      if merged.1 then Some(merged.0) else None
  }

  /** `reconcileRedirectRuleset`: counts one drift when there is something to write, and writes it
      unless it only plans. */
  method ReconcileRedirectRuleset(isPlan: bool, zone: Option<seq<Json>>, redirects: seq<Redirect>)
    returns (write: Option<seq<Json>>, drift: nat)
    requires zone.Some? ==> AllObjects(zone.value)
    ensures write == if isPlan then None else Pass(zone, ToRules(redirects))
    ensures drift == if Pass(zone, ToRules(redirects)).Some? then 1 else 0
  {
    var desiredRules := ToRules(redirects);
    if zone.None? {
      return (if isPlan then None else Some(desiredRules)), 1;
    }
    var rules := zone.value;
    var changed := false;
    var n := 0;
    while n < |desiredRules|
      invariant 0 <= n <= |desiredRules|
      invariant AllObjects(rules)
      invariant
        var rest := Merge(rules, desiredRules[n..]);
        Merge(zone.value, desiredRules) == (rest.0, changed || rest.1)
    {
      var desired := desiredRules[n];
      assert desiredRules[n..][1..] == desiredRules[n + 1..];
      var index := FindIndex(rules, RefOf(desired));
      n := n + 1;
      if index == -1 {
        changed := true;
        rules := rules + [desired];
        continue;
      }
      var next := WithId(desired, rules[index]);
      if !DeepEqual(rules[index], next) {
        changed := true;
        rules := rules[index := next];
      }
    }
    if !changed {
      return None, 0;
    }
    return (if isPlan then None else Some(rules)), 1;
  }

  // ---------------------------------------------------------------- rules up to their id

  /** The same value under every key but `id`. */
  ghost predicate SameButId(a: Json, b: Json)
    requires a.Obj? && b.Obj?
  {
    forall key :: key != "id" ==> Meaning(Get(a.members, key)) == Meaning(Get(b.members, key))
  }

  predicate HasId(rule: Json)
    requires rule.Obj?
  {
    Get(rule.members, "id") != Undefined
  }

  lemma {:induction false} GetConcat(a: seq<Member>, b: seq<Member>, key: string)
    ensures Get(a + b, key) == if HasKey(a, key) then Get(a, key) else Get(b, key)
  {
    if a == [] {
      assert a + b == b;
    } else {
      assert (a + b)[0] == a[0] && (a + b)[1..] == a[1..] + b;
      GetConcat(a[1..], b, key);
      if a[0].key != key {
        if HasKey(a, key) {
          var i :| 0 <= i < |a| && a[i].key == key;
          assert a[1..][i - 1].key == key;
        }
        if HasKey(a[1..], key) {
          var i :| 0 <= i < |a[1..]| && a[1..][i].key == key;
          assert a[i + 1].key == key;
        }
      }
    }
  }

  lemma WithIdReads(desired: Json, current: Json, key: string)
    requires Desired(desired) && current.Obj? && Proper(current)
    ensures
      var next := WithId(desired, current);
      && Proper(next)
      && Get(next.members, key) == (if key == "id" then Get(current.members, "id") else Get(desired.members, key))
      && (HasKey(next.members, key) <==> key == "id" || HasKey(desired.members, key))
  {
    var next := WithId(desired, current);
    var added := [Member("id", Get(current.members, "id"))];
    GetConcat(desired.members, added, key);
    GetMissing(desired.members, key);
    GetProper(current, "id");
    assert next.members[|desired.members|].key == "id";
    if HasKey(next.members, key) && key != "id" {
      var i :| 0 <= i < |next.members| && next.members[i].key == key;
      assert desired.members[i].key == key;
    }
    if HasKey(desired.members, key) {
      var i :| 0 <= i < |desired.members| && desired.members[i].key == key;
      assert next.members[i].key == key;
    }
    forall i, j | 0 <= i < j < |next.members| ensures next.members[i].key != next.members[j].key {
      if j == |desired.members| {
        assert desired.members[i].key != "id";
      }
    }
  }

  lemma PresentIffDefined(rule: Json, key: string)
    requires Received(rule)
    ensures HasKey(rule.members, key) <==> Get(rule.members, key) != Undefined
  {
    GetMissing(rule.members, key);
    if HasKey(rule.members, key) {
      var i :| 0 <= i < |rule.members| && rule.members[i].key == key;
      GetMember(rule.members, i);
      assert Defined(rule.members[i].value);
    }
  }

  // ---------------------------------------------------------------- toRedirectRule

  datatype Redirect = Redirect(
    ref: string,
    description: string,
    hosts: seq<string>,
    targetUrl: string,
    statusCode: int,
    preserveQueryString: bool)

  const TEST := "http.host eq \""

  function HostTests(hosts: seq<string>): string
    decreases |hosts|, 0
  {
    if hosts == [] then "" else TEST + hosts[0] + "\"" + MoreTests(hosts[1..])
  }

  function MoreTests(hosts: seq<string>): string
    decreases |hosts|, 1
  {
    if hosts == [] then "" else " or " + HostTests(hosts)
  }

  function HostExpression(hosts: seq<string>): string {
    "(" + HostTests(hosts) + ")"
  }

  function ToRule(redirect: Redirect): Json {
    Obj([Member("ref", Str(redirect.ref)),
         Member("description", Str(redirect.description)),
         Member("expression", Str(HostExpression(redirect.hosts))),
         Member("action", Str("redirect")),
         Member("action_parameters", Parameters(redirect)),
         Member("enabled", Bool(true))])
  }

  function Parameters(redirect: Redirect): Json {
    Obj([Member("from_value", FromValue(redirect))])
  }

  function FromValue(redirect: Redirect): Json {
    Obj([Member("target_url", Obj([Member("value", Str(redirect.targetUrl))])),
         Member("status_code", Num(redirect.statusCode)),
         Member("preserve_query_string", Bool(redirect.preserveQueryString))])
  }

  function ToRules(redirects: seq<Redirect>): (rules: seq<Json>)
    ensures |rules| == |redirects| && AllObjects(rules)
  {
    seq(|redirects|, i requires 0 <= i < |redirects| => ToRule(redirects[i]))
  }

  predicate AllParsed(rules: seq<Json>) {
    forall i :: 0 <= i < |rules| ==> Parsed(rules[i])
  }

  predicate AllDesired(rules: seq<Json>) {
    forall i :: 0 <= i < |rules| ==> Desired(rules[i])
  }

  predicate Clean(a: Json) {
    Proper(a) && Defined(a) && TellsAll(a)
  }

  lemma CleanObject(members: seq<Member>)
    requires Distinct(members)
    requires forall i :: 0 <= i < |members| ==> Clean(members[i].value) && members[i].value != Obj([])
    ensures Clean(Obj(members))
  {
    forall i | 0 <= i < |members| ensures !Hides(members[i]) {
      assert Clean(members[i].value);
    }
  }

  lemma ParametersAreClean(redirect: Redirect)
    ensures Clean(Parameters(redirect))
  {
    CleanObject([Member("value", Str(redirect.targetUrl))]);
    CleanObject(FromValue(redirect).members);
    CleanObject(Parameters(redirect).members);
  }

  lemma ToRuleIsDesired(redirect: Redirect)
    ensures Desired(ToRule(redirect)) && RefOf(ToRule(redirect)) == Str(redirect.ref)
  {
    ParametersAreClean(redirect);
    RuleKeys(redirect);
    CleanObject(ToRule(redirect).members);
  }

  lemma RuleKeys(redirect: Redirect)
    ensures Distinct(ToRule(redirect).members) && !HasKey(ToRule(redirect).members, "id")
    ensures RefOf(ToRule(redirect)) == Str(redirect.ref)
  {
  }

  // ---------------------------------------------------------------- what a merge leaves

  /** The rule that answers to a ref. */
  function FirstRule(rules: seq<Json>, ref: Json): Option<Json>
    requires AllObjects(rules)
    ensures FirstRule(rules, ref).Some? ==> FirstRule(rules, ref).value.Obj?
  {
    var index := FindIndex(rules, ref);
    if index == -1 then None else Some(rules[index])
  }

  /** The server has a rule for the desired one: first of its ref, with an id, equal everywhere else. */
  ghost predicate UpToDate(rules: seq<Json>, desired: Json)
    requires AllObjects(rules) && desired.Obj?
  {
    var rule := FirstRule(rules, RefOf(desired));
    rule.Some? && HasId(rule.value) && SameButId(rule.value, desired)
  }

  lemma FindIndexIs(rules: seq<Json>, ref: Json, index: int)
    requires AllObjects(rules) && 0 <= index < |rules| && RefOf(rules[index]) == ref
    requires forall i :: 0 <= i < index ==> RefOf(rules[i]) != ref
    ensures FindIndex(rules, ref) == index
  {
  }

  predicate AllReceived(rules: seq<Json>) {
    forall i :: 0 <= i < |rules| ==> Received(rules[i])
  }

  /** A rule as the loop may hold it at all. */
  predicate Held(rule: Json) {
    rule.Obj? && Proper(rule)
  }

  predicate AllHeld(rules: seq<Json>) {
    forall i :: 0 <= i < |rules| ==> Held(rules[i])
  }

  lemma WithIdHolds(desired: Json, current: Json)
    requires Desired(desired) && Held(current)
    ensures Held(WithId(desired, current)) && SameButId(WithId(desired, current), desired)
    ensures Get(WithId(desired, current).members, "id") == Get(current.members, "id")
    ensures RefOf(WithId(desired, current)) == RefOf(desired)
  {
    WithIdReads(desired, current, "id");
    forall key ensures key != "id" ==> Get(WithId(desired, current).members, key) == Get(desired.members, key) {
      WithIdReads(desired, current, key);
    }
    WithIdReads(desired, current, "ref");
  }

  /** One that hides nothing; only its id may be `undefined`. */
  predicate Working(rule: Json) {
    && rule.Obj? && Proper(rule)
    && forall i :: 0 <= i < |rule.members| ==> rule.members[i].key == "id" || Told(rule.members[i])
  }

  predicate Told(member: Member) {
    Defined(member.value) && TellsAll(member.value) && !Hides(member)
  }

  lemma WithIdWorks(desired: Json, current: Json)
    requires Desired(desired) && Held(current)
    ensures Working(WithId(desired, current))
  {
    WithIdHolds(desired, current);
    var next := WithId(desired, current);
    forall i | 0 <= i < |next.members|
      ensures next.members[i].key == "id" || Told(next.members[i])
    {
      if i < |desired.members| {
        assert next.members[i] == desired.members[i];
      }
    }
  }

  /** What the loop leaves alone answers the desired rule. */
  lemma LeftAloneAnswers(current: Json, desired: Json)
    requires Working(current) && Desired(desired) && DeepEqual(current, WithId(desired, current))
    ensures SameButId(current, desired)
  {
    var next := WithId(desired, current);
    WithIdReads(desired, current, "id");
    forall i | 0 <= i < |current.members|
      ensures HasKey(next.members, current.members[i].key)
      ensures current.members[i].key != "id" ==>
                Meaning(current.members[i].value) == Meaning(Get(next.members, current.members[i].key))
    {
      var member := current.members[i];
      if member.key != "id" {
        assert DeepEqual(member.value, Read(next.members, member.key));
        OwnOrHidden(member, next.members);
        GetProper(next, member.key);
        DeepEqualIfTold(member.value, Get(next.members, member.key));
      }
    }
    forall key | key != "id" ensures Meaning(Get(current.members, key)) == Meaning(Get(desired.members, key)) {
      WithIdReads(desired, current, key);
      KeysCoincide(current.members, next.members, key);
      GetMissing(current.members, key);
      GetMissing(next.members, key);
      if HasKey(current.members, key) {
        var i :| 0 <= i < |current.members| && current.members[i].key == key;
        GetMember(current.members, i);
      }
    }
  }

  // ---------------------------------------------------------------- idle turns

  /** The loop's test: the first rule of the ref is equal to the desired one with its own id. */
  predicate Accepts(rules: seq<Json>, desired: Json)
    requires AllObjects(rules) && desired.Obj?
  {
    var rule := FirstRule(rules, RefOf(desired));
    rule.Some? && DeepEqual(rule.value, WithId(desired, rule.value))
  }

  /** A merge is idle exactly when every desired rule is accepted. */
  lemma {:induction false} MergeIdle(rules: seq<Json>, desired: seq<Json>)
    requires AllObjects(rules) && AllObjects(desired)
    ensures !Merge(rules, desired).1 <==> forall i :: 0 <= i < |desired| ==> Accepts(rules, desired[i])
    ensures !Merge(rules, desired).1 ==> Merge(rules, desired).0 == rules
    decreases |desired|
  {
    if desired != [] {
      var rest := desired[1..];
      if Accepts(rules, desired[0]) {
        MergeIdle(rules, rest);
        assert forall i :: 0 < i < |desired| ==> desired[i] == rest[i - 1];
        assert forall i :: 0 <= i < |rest| ==> rest[i] == desired[i + 1];
      } else {
        assert MergeOne(rules, desired[0]).1;
      }
    }
  }

  /** Of a rule that hides nothing the test reads off: it has an id, and agrees everywhere else. */
  lemma WorkingAcceptsIff(current: Json, desired: Json)
    requires Working(current) && Desired(desired)
    ensures DeepEqual(current, WithId(desired, current)) <==>
            HasKey(current.members, "id") && SameButId(current, desired)
  {
    var next := WithId(desired, current);
    WithIdReads(desired, current, "id");
    if DeepEqual(current, next) {
      LeftAloneAnswers(current, desired);
      LeftAloneHasKeys(current, desired);
      KeysCoincide(current.members, next.members, "id");
    }
    if HasKey(current.members, "id") && SameButId(current, desired) {
      SameWithId(current, desired);
      SameMeaningIsEqual(current, next);
    }
  }

  lemma LeftAloneHasKeys(current: Json, desired: Json)
    requires Working(current) && Desired(desired) && DeepEqual(current, WithId(desired, current))
    ensures forall i :: 0 <= i < |current.members| ==>
              HasKey(WithId(desired, current).members, current.members[i].key)
  {
    var next := WithId(desired, current);
    WithIdReads(desired, current, "id");
    forall i | 0 <= i < |current.members| ensures HasKey(next.members, current.members[i].key) {
      assert DeepEqual(current.members[i].value, Read(next.members, current.members[i].key));
      if current.members[i].key != "id" {
        OwnOrHidden(current.members[i], next.members);
      }
    }
  }

  lemma WorkingIsPresent(rule: Json, key: string)
    requires Working(rule) && key != "id"
    ensures HasKey(rule.members, key) <==> Get(rule.members, key) != Undefined
  {
    GetMissing(rule.members, key);
    if HasKey(rule.members, key) {
      var i :| 0 <= i < |rule.members| && rule.members[i].key == key;
      GetMember(rule.members, i);
      assert Told(rule.members[i]);
    }
  }

  lemma SameWithId(current: Json, desired: Json)
    requires Working(current) && Desired(desired) && HasKey(current.members, "id") && SameButId(current, desired)
    ensures Meaning(current) == Meaning(WithId(desired, current)) && Proper(WithId(desired, current))
  {
    var next := WithId(desired, current);
    WithIdHolds(desired, current);
    forall key
      ensures key in MeaningOf(current.members) <==> key in MeaningOf(next.members)
      ensures key in MeaningOf(current.members) ==> MeaningOf(current.members)[key] == MeaningOf(next.members)[key]
    {
      WithIdReads(desired, current, key);
      MeaningKeys(current.members, key);
      MeaningKeys(next.members, key);
      if key != "id" {
        WorkingIsPresent(current, key);
        PresentIffDefined(desired, key);
        assert Meaning(Get(current.members, key)) == Meaning(Get(desired.members, key));
      }
    }
  }

  // ---------------------------------------------------------------- first rules through a merge

  lemma FindIndexNone(rules: seq<Json>, ref: Json)
    requires AllObjects(rules) && forall i :: 0 <= i < |rules| ==> RefOf(rules[i]) != ref
    ensures FindIndex(rules, ref) == -1
  {
  }

  lemma FirstRuleStays(rules: seq<Json>, after: seq<Json>, ref: Json)
    requires AllObjects(rules) && AllObjects(after) && |rules| <= |after|
    requires forall i :: 0 <= i < |rules| ==> after[i] == rules[i] || (RefOf(rules[i]) != ref && RefOf(after[i]) != ref)
    requires forall i :: |rules| <= i < |after| ==> RefOf(after[i]) != ref
    ensures FirstRule(after, ref) == FirstRule(rules, ref)
  {
    var first := FindIndex(rules, ref);
    if first == -1 {
      FindIndexNone(after, ref);
    } else {
      FindIndexIs(after, ref, first);
    }
  }

  /** Rewriting the first rule of a ref, or adding one at the end, leaves every other ref its first rule. */
  lemma MergeOneKeepsOthers(rules: seq<Json>, desired: Json, ref: Json)
    requires AllHeld(rules) && Desired(desired) && ref != RefOf(desired)
    ensures FirstRule(MergeOne(rules, desired).0, ref) == FirstRule(rules, ref)
  {
    var index := FindIndex(rules, RefOf(desired));
    if index != -1 {
      WithIdHolds(desired, rules[index]);
    }
    FirstRuleStays(rules, MergeOne(rules, desired).0, ref);
  }

  lemma MergeOneHolds(rules: seq<Json>, desired: Json)
    requires AllHeld(rules) && Desired(desired)
    ensures AllHeld(MergeOne(rules, desired).0)
  {
    var index := FindIndex(rules, RefOf(desired));
    if index != -1 {
      WithIdHolds(desired, rules[index]);
    }
  }

  /** The first rule of the ref was built from this desired rule, whatever id it has. */
  ghost predicate MadeFrom(rules: seq<Json>, desired: Json)
    requires AllObjects(rules) && desired.Obj?
  {
    var rule := FirstRule(rules, RefOf(desired));
    rule.Some? && Working(rule.value) && SameButId(rule.value, desired)
  }

  lemma DesiredWorks(desired: Json)
    requires Desired(desired)
    ensures Working(desired) && SameButId(desired, desired)
  {
  }

  /** A turn that is not idle builds the rule. */
  lemma MergeOneMakes(rules: seq<Json>, desired: Json)
    requires AllHeld(rules) && Desired(desired) && !Accepts(rules, desired)
    ensures MadeFrom(MergeOne(rules, desired).0, desired)
  {
    var index := FindIndex(rules, RefOf(desired));
    if index == -1 {
      DesiredWorks(desired);
      FindIndexIs(rules + [desired], RefOf(desired), |rules|);
    } else {
      var next := WithId(desired, rules[index]);
      WithIdHolds(desired, rules[index]);
      WithIdWorks(desired, rules[index]);
      FindIndexIs(rules[index := next], RefOf(desired), index);
    }
  }

  ghost predicate AllAccepted(rules: seq<Json>, desired: seq<Json>, ref: Json)
    requires AllObjects(rules) && AllObjects(desired)
  {
    forall i :: 0 <= i < |desired| && RefOf(desired[i]) == ref ==> Accepts(rules, desired[i])
  }

  ghost predicate SomeMade(merged: seq<Json>, desired: seq<Json>, ref: Json)
    requires AllObjects(merged) && AllObjects(desired)
  {
    exists k :: 0 <= k < |desired| && RefOf(desired[k]) == ref && MadeFrom(merged, desired[k])
  }

  /** The ref's first rule came through untouched, accepted by all that desire it. */
  ghost predicate Kept(rules: seq<Json>, desired: seq<Json>, ref: Json, merged: seq<Json>)
    requires AllObjects(rules) && AllObjects(desired) && AllObjects(merged)
  {
    FirstRule(merged, ref) == FirstRule(rules, ref) && AllAccepted(rules, desired, ref)
  }

  /** It was built, from one desired rule, because some desired rule was not accepted. */
  ghost predicate Made(rules: seq<Json>, desired: seq<Json>, ref: Json, merged: seq<Json>)
    requires AllObjects(rules) && AllObjects(desired) && AllObjects(merged)
  {
    SomeMade(merged, desired, ref) && !AllAccepted(rules, desired, ref)
  }

  lemma AllAcceptedCons(rules: seq<Json>, desired: seq<Json>, ref: Json)
    requires AllObjects(rules) && AllObjects(desired) && desired != []
    ensures AllAccepted(rules, desired, ref) <==>
            (RefOf(desired[0]) == ref ==> Accepts(rules, desired[0])) && AllAccepted(rules, desired[1..], ref)
  {
    var rest := desired[1..];
    assert forall i :: 0 <= i < |rest| ==> rest[i] == desired[i + 1];
    assert forall i :: 0 < i < |desired| ==> desired[i] == rest[i - 1];
  }

  lemma MadeAt(merged: seq<Json>, desired: seq<Json>, ref: Json, k: nat)
    requires AllObjects(merged) && AllObjects(desired) && k < |desired|
    requires RefOf(desired[k]) == ref && MadeFrom(merged, desired[k])
    ensures SomeMade(merged, desired, ref)
  {
  }

  lemma SomeMadeCons(merged: seq<Json>, desired: seq<Json>, ref: Json)
    requires AllObjects(merged) && AllObjects(desired) && desired != []
    requires (RefOf(desired[0]) == ref && MadeFrom(merged, desired[0])) || SomeMade(merged, desired[1..], ref)
    ensures SomeMade(merged, desired, ref)
  {
    var rest := desired[1..];
    if SomeMade(merged, rest, ref) {
      var k :| 0 <= k < |rest| && RefOf(rest[k]) == ref && MadeFrom(merged, rest[k]);
      assert rest[k] == desired[k + 1];
      MadeAt(merged, desired, ref, k + 1);
    } else {
      MadeAt(merged, desired, ref, 0);
    }
  }

  lemma SameFirstSameTest(rules: seq<Json>, middle: seq<Json>, rest: seq<Json>, ref: Json)
    requires AllObjects(rules) && AllObjects(middle) && AllObjects(rest)
    requires FirstRule(middle, ref) == FirstRule(rules, ref)
    ensures AllAccepted(middle, rest, ref) <==> AllAccepted(rules, rest, ref)
  {
  }

  lemma KeptOrMadeCons(rules: seq<Json>, desired: seq<Json>, ref: Json, merged: seq<Json>)
    requires AllHeld(rules) && AllDesired(desired) && desired != [] && AllObjects(merged)
    requires
      var middle := MergeOne(rules, desired[0]).0;
      Kept(middle, desired[1..], ref, merged) || Made(middle, desired[1..], ref, merged)
    ensures Kept(rules, desired, ref, merged) || Made(rules, desired, ref, merged)
  {
    var middle := MergeOne(rules, desired[0]).0;
    AllAcceptedCons(rules, desired, ref);
    if SomeMade(merged, desired[1..], ref) {
      SomeMadeCons(merged, desired, ref);
    }
    if RefOf(desired[0]) != ref {
      MergeOneKeepsOthers(rules, desired[0], ref);
      SameFirstSameTest(rules, middle, desired[1..], ref);
    } else if !Accepts(rules, desired[0]) {
      MergeOneMakes(rules, desired[0]);
      if Kept(middle, desired[1..], ref, merged) {
        SomeMadeCons(merged, desired, ref);
      }
    }
  }

  lemma MergeCons(rules: seq<Json>, desired: seq<Json>)
    requires AllObjects(rules) && AllObjects(desired) && desired != []
    ensures Merge(rules, desired).0 == Merge(MergeOne(rules, desired[0]).0, desired[1..]).0
  {
  }

  /** Through a merge each ref's first rule is kept or made, whatever the rules hide. */
  lemma {:induction false} MergeKeepsOrMakes(rules: seq<Json>, desired: seq<Json>, ref: Json)
    requires AllHeld(rules) && AllDesired(desired)
    ensures
      var merged := Merge(rules, desired).0;
      Kept(rules, desired, ref, merged) || Made(rules, desired, ref, merged)
    decreases |desired|
  {
    if desired != [] {
      var middle, rest := MergeOne(rules, desired[0]).0, desired[1..];
      MergeOneHolds(rules, desired[0]);
      assert AllDesired(rest);
      MergeKeepsOrMakes(middle, rest, ref);
      MergeCons(rules, desired);
      KeptOrMadeCons(rules, desired, ref, Merge(middle, rest).0);
    }
  }

  lemma {:induction false} MergeKeepsOthers(rules: seq<Json>, desired: seq<Json>, ref: Json)
    requires AllHeld(rules) && AllDesired(desired)
    requires forall i :: 0 <= i < |desired| ==> RefOf(desired[i]) != ref
    ensures FirstRule(Merge(rules, desired).0, ref) == FirstRule(rules, ref)
    decreases |desired|
  {
    if desired != [] {
      MergeOneHolds(rules, desired[0]);
      MergeOneKeepsOthers(rules, desired[0], ref);
      MergeKeepsOthers(MergeOne(rules, desired[0]).0, desired[1..], ref);
    }
  }

  /** After a merge, the first rule of each ref was accepted for, or made from, the last desired rule of it. */
  lemma {:induction false} MergeAnswersLast(rules: seq<Json>, desired: seq<Json>, at: nat)
    requires AllHeld(rules) && AllDesired(desired) && at < |desired|
    requires forall j :: at < j < |desired| ==> RefOf(desired[j]) != RefOf(desired[at])
    ensures
      var merged := Merge(rules, desired).0;
      Accepts(merged, desired[at]) || MadeFrom(merged, desired[at])
    decreases |desired|
  {
    var first, rest := MergeOne(rules, desired[0]).0, desired[1..];
    MergeOneHolds(rules, desired[0]);
    assert AllDesired(rest) && Merge(rules, desired).0 == Merge(first, rest).0;
    if at == 0 {
      MergeKeepsOthers(first, rest, RefOf(desired[0]));
      if !Accepts(rules, desired[0]) {
        MergeOneMakes(rules, desired[0]);
      }
    } else {
      assert rest[at - 1] == desired[at];
      assert forall j :: at - 1 < j < |rest| ==> rest[j] == desired[j + 1];
      MergeAnswersLast(first, rest, at - 1);
    }
  }

  // ---------------------------------------------------------------- what the merge leaves alone

  predicate Names(desired: seq<Json>, ref: Json)
    requires AllObjects(desired)
  {
    exists i :: 0 <= i < |desired| && RefOf(desired[i]) == ref
  }

  /** Position by position: a rule keeps its ref and its id, and its content too unless it is the first
      rule of a desired ref; what is added at the end is of desired refs the rules lacked. */
  ghost predicate TouchesOnly(rules: seq<Json>, desired: seq<Json>, merged: seq<Json>)
    requires AllObjects(rules) && AllObjects(desired) && AllObjects(merged)
  {
    && |rules| <= |merged|
    && (forall i :: 0 <= i < |rules| ==> KeepsPlace(rules, desired, i, merged[i]))
    && (forall i :: |rules| <= i < |merged| ==>
          Names(desired, RefOf(merged[i])) && FindIndex(rules, RefOf(merged[i])) == -1)
  }

  predicate KeepsPlace(rules: seq<Json>, desired: seq<Json>, i: nat, now: Json)
    requires AllObjects(rules) && AllObjects(desired) && i < |rules| && now.Obj?
  {
    && RefOf(now) == RefOf(rules[i])
    && Get(now.members, "id") == Get(rules[i].members, "id")
    && (now == rules[i] || (Names(desired, RefOf(now)) && FindIndex(rules, RefOf(now)) == i))
  }

  lemma MergeOneTouches(rules: seq<Json>, desired: Json)
    requires AllHeld(rules) && Desired(desired)
    ensures TouchesOnly(rules, [desired], MergeOne(rules, desired).0)
  {
    var index := FindIndex(rules, RefOf(desired));
    assert [desired][0] == desired;
    if index != -1 {
      WithIdHolds(desired, rules[index]);
    }
  }

  lemma TouchesThenTouches(rules: seq<Json>, first: Json, middle: seq<Json>, rest: seq<Json>, merged: seq<Json>)
    requires AllObjects(rules) && first.Obj? && AllObjects(middle) && AllObjects(rest) && AllObjects(merged)
    requires TouchesOnly(rules, [first], middle) && TouchesOnly(middle, rest, merged)
    ensures TouchesOnly(rules, [first] + rest, merged)
  {
    var all := [first] + rest;
    forall ref ensures Names(all, ref) <==> Names([first], ref) || Names(rest, ref) {
      NamesConcat(first, rest, ref);
    }
    forall i | 0 <= i < |rules| ensures KeepsPlace(rules, all, i, merged[i]) {
      assert KeepsPlace(rules, [first], i, middle[i]);
      assert KeepsPlace(middle, rest, i, merged[i]);
      if merged[i] != middle[i] {
        SameFirst(rules, middle, i);
      }
    }
    forall i | |rules| <= i < |merged|
      ensures Names(all, RefOf(merged[i])) && FindIndex(rules, RefOf(merged[i])) == -1
    {
      if i < |middle| {
        assert KeepsPlace(middle, rest, i, merged[i]);
      } else {
        forall j | 0 <= j < |rules| ensures RefOf(rules[j]) != RefOf(merged[i]) {
          assert KeepsPlace(rules, [first], j, middle[j]);
        }
        FindIndexNone(rules, RefOf(merged[i]));
      }
    }
  }

  lemma NamesConcat(first: Json, rest: seq<Json>, ref: Json)
    requires first.Obj? && AllObjects(rest)
    ensures Names([first] + rest, ref) <==> Names([first], ref) || Names(rest, ref)
  {
    var all := [first] + rest;
    assert all[0] == first && [first][0] == first;
    if Names(rest, ref) {
      var i :| 0 <= i < |rest| && RefOf(rest[i]) == ref;
      assert all[i + 1] == rest[i];
    }
    if Names(all, ref) {
      var i :| 0 <= i < |all| && RefOf(all[i]) == ref;
      assert i > 0 ==> rest[i - 1] == all[i];
    }
  }

  lemma SameFirst(rules: seq<Json>, middle: seq<Json>, i: nat)
    requires AllObjects(rules) && AllObjects(middle) && i < |rules| <= |middle|
    requires forall j :: 0 <= j < |rules| ==> RefOf(middle[j]) == RefOf(rules[j])
    requires FindIndex(middle, RefOf(rules[i])) == i
    ensures FindIndex(rules, RefOf(rules[i])) == i
  {
    FindIndexIs(rules, RefOf(rules[i]), i);
  }

  /** Rules of other refs keep content and order, and no rule loses its place, ref or id. */
  lemma {:induction false} MergeTouchesOnly(rules: seq<Json>, desired: seq<Json>)
    requires AllHeld(rules) && AllDesired(desired)
    ensures TouchesOnly(rules, desired, Merge(rules, desired).0)
    decreases |desired|
  {
    if desired != [] {
      var middle := MergeOne(rules, desired[0]).0;
      MergeOneHolds(rules, desired[0]);
      MergeOneTouches(rules, desired[0]);
      MergeTouchesOnly(middle, desired[1..]);
      TouchesThenTouches(rules, desired[0], middle, desired[1..], Merge(middle, desired[1..]).0);
      assert desired == [desired[0]] + desired[1..];
    }
  }

  // ---------------------------------------------------------------- what the server stores

  /** A server that stores what it is sent and gives an id to a rule without one. */
  ghost predicate Stores(written: seq<Json>, stored: seq<Json>)
    requires AllObjects(written)
  {
    && |stored| == |written|
    && AllReceived(stored)
    && forall i :: 0 <= i < |stored| ==> StoresRule(written[i], stored[i])
  }

  ghost predicate StoresRule(written: Json, stored: Json)
    requires written.Obj? && stored.Obj?
  {
    && SameButId(stored, written)
    && HasId(stored)
    && (HasId(written) ==> Meaning(Get(stored.members, "id")) == Meaning(Get(written.members, "id")))
  }

  /** The zone after a pass that applies. */
  ghost predicate After(zone: Option<seq<Json>>, desired: seq<Json>, after: seq<Json>)
    requires AllObjects(desired) && (zone.Some? ==> AllObjects(zone.value))
  {
    var write := Pass(zone, desired);
    if write.None? then zone == Some(after)
    else AllObjects(write.value) && Stores(write.value, after)
  }

  /** Desired rules that share a ref are one rule. */
  ghost predicate Consistent(desired: seq<Json>)
    requires AllObjects(desired)
  {
    forall i, j :: 0 <= i < |desired| && 0 <= j < |desired| && RefOf(desired[i]) == RefOf(desired[j]) ==>
      SameButId(desired[i], desired[j])
  }

  lemma RefsMeanThemselves(a: Json, b: Json, ref: Json)
    requires a.Obj? && b.Obj? && SameButId(a, b) && ref.Str?
    ensures RefOf(a) == ref <==> RefOf(b) == ref
  {
    assert Meaning(Get(a.members, "ref")) == Meaning(Get(b.members, "ref"));
  }

  lemma StoredFirst(written: seq<Json>, stored: seq<Json>, ref: Json)
    requires AllObjects(written) && Stores(written, stored) && ref.Str?
    ensures FirstRule(stored, ref).Some? <==> FirstRule(written, ref).Some?
    ensures FirstRule(written, ref).Some? ==>
              StoresRule(FirstRule(written, ref).value, FirstRule(stored, ref).value)
              && Received(FirstRule(stored, ref).value)
  {
    forall i | 0 <= i < |stored| ensures RefOf(stored[i]) == ref <==> RefOf(written[i]) == ref {
      assert StoresRule(written[i], stored[i]);
      RefsMeanThemselves(stored[i], written[i], ref);
    }
    var index := FindIndex(written, ref);
    if index == -1 {
      FindIndexNone(stored, ref);
    } else {
      FindIndexIs(stored, ref, index);
      assert StoresRule(written[index], stored[index]);
    }
  }

  lemma StoredKeys(rule: Json, stored: Json, key: string)
    requires Received(rule) && Received(stored) && StoresRule(rule, stored)
    ensures HasKey(stored.members, key) <==> key == "id" || HasKey(rule.members, key)
    ensures HasKey(rule.members, key) ==> Meaning(Get(stored.members, key)) == Meaning(Get(rule.members, key))
  {
    PresentIffDefined(rule, key);
    PresentIffDefined(stored, key);
    assert key != "id" ==> Meaning(Get(stored.members, key)) == Meaning(Get(rule.members, key));
  }

  lemma StoredMeansSame(rule: Json, stored: Json)
    requires Received(rule) && Received(stored) && StoresRule(rule, stored) && HasId(rule)
    ensures Meaning(stored) == Meaning(rule)
  {
    forall key
      ensures key in MeaningOf(stored.members) <==> key in MeaningOf(rule.members)
      ensures key in MeaningOf(stored.members) ==> MeaningOf(stored.members)[key] == MeaningOf(rule.members)[key]
    {
      StoredKeys(rule, stored, key);
      PresentIffDefined(rule, key);
      MeaningKeys(stored.members, key);
      MeaningKeys(rule.members, key);
    }
  }

  lemma StoredGrows(rule: Json, stored: Json)
    requires Received(rule) && Received(stored) && StoresRule(rule, stored) && !HasId(rule)
    ensures |stored.members| == |rule.members| + 1
  {
    PresentIffDefined(rule, "id");
    forall key ensures key in KeySet(stored.members) <==> key in KeySet(rule.members) + {"id"} {
      StoredKeys(rule, stored, key);
      assert key in KeySet(stored.members) <==> HasKey(stored.members, key);
      assert key in KeySet(rule.members) <==> HasKey(rule.members, key);
    }
    assert KeySet(stored.members) == KeySet(rule.members) + {"id"};
    KeySetSize(stored.members);
    KeySetSize(rule.members);
  }

  /** Two values for the id that mean the same, or two desired rules that do, give one test. */
  lemma SameWithSame(a: Json, b: Json, x: Json, y: Json)
    requires Desired(a) && Desired(b) && Held(x) && Held(y) && SameButId(a, b)
    requires Meaning(Get(x.members, "id")) == Meaning(Get(y.members, "id"))
    ensures Meaning(WithId(a, x)) == Meaning(WithId(b, y)) && Proper(WithId(a, x)) && Proper(WithId(b, y))
  {
    var v, w := WithId(a, x), WithId(b, y);
    WithIdHolds(a, x);
    WithIdHolds(b, y);
    forall key
      ensures key in MeaningOf(v.members) <==> key in MeaningOf(w.members)
      ensures key in MeaningOf(v.members) ==> MeaningOf(v.members)[key] == MeaningOf(w.members)[key]
    {
      WithIdReads(a, x, key);
      WithIdReads(b, y, key);
      MeaningKeys(v.members, key);
      MeaningKeys(w.members, key);
      PresentIffDefined(a, key);
      PresentIffDefined(b, key);
      assert key != "id" ==> Meaning(Get(a.members, key)) == Meaning(Get(b.members, key));
    }
  }

  lemma AcceptedAlike(rule: Json, a: Json, b: Json)
    requires Held(rule) && Desired(a) && Desired(b) && SameButId(a, b) && DeepEqual(rule, WithId(a, rule))
    ensures DeepEqual(rule, WithId(b, rule))
  {
    SameWithSame(a, b, rule, rule);
    DeepEqualRespects(rule, rule, WithId(a, rule), WithId(b, rule));
  }

  /** A rule accepted as it was found is accepted once stored exactly if it had an id already. */
  lemma KeptIsAcceptedIff(rule: Json, stored: Json, desired: Json)
    requires Received(rule) && Received(stored) && StoresRule(rule, stored) && Desired(desired)
    requires DeepEqual(rule, WithId(desired, rule))
    ensures DeepEqual(stored, WithId(desired, stored)) <==> HasId(rule)
  {
    WithIdHolds(desired, rule);
    if HasId(rule) {
      StoredMeansSame(rule, stored);
      SameWithSame(desired, desired, rule, stored);
      DeepEqualRespects(rule, stored, WithId(desired, rule), WithId(desired, stored));
    } else {
      StoredGrows(rule, stored);
    }
  }

  lemma StoredWorks(rule: Json, stored: Json)
    requires Working(rule) && Received(stored) && StoresRule(rule, stored)
    ensures Working(stored)
  {
    forall i | 0 <= i < |stored.members| ensures stored.members[i].key == "id" || Told(stored.members[i]) {
      var member := stored.members[i];
      if member.key != "id" {
        GetMember(stored.members, i);
        assert Meaning(Get(stored.members, member.key)) == Meaning(Get(rule.members, member.key));
        assert Defined(member.value);
        WorkingIsPresent(rule, member.key);
        var j :| 0 <= j < |rule.members| && rule.members[j].key == member.key;
        GetMember(rule.members, j);
        ToldRespects(rule.members[j], member);
      }
    }
  }

  lemma ToldRespects(a: Member, b: Member)
    requires a.key == b.key && Told(a) && Proper(a.value) && Proper(b.value) && Defined(b.value)
    requires Meaning(a.value) == Meaning(b.value)
    ensures Told(b)
  {
    TellsAllRespects(a.value, b.value);
    if b.value == Obj([]) {
      assert Meaning(a.value) == Node(map[]);
      assert a.value.Obj? && a.value.members == [];
    }
  }

  /** A rule made from one desired rule is accepted, once stored, by exactly those like it. */
  lemma MadeIsAcceptedIff(rule: Json, stored: Json, from: Json, desired: Json)
    requires Working(rule) && Received(stored) && StoresRule(rule, stored)
    requires Desired(from) && Desired(desired) && SameButId(rule, from)
    ensures DeepEqual(stored, WithId(desired, stored)) <==> SameButId(from, desired)
  {
    StoredWorks(rule, stored);
    WorkingAcceptsIff(stored, desired);
    PresentIffDefined(stored, "id");
    forall key | key != "id" ensures Meaning(Get(stored.members, key)) == Meaning(Get(from.members, key)) {
      assert Meaning(Get(stored.members, key)) == Meaning(Get(rule.members, key));
    }
  }

  // ---------------------------------------------------------------- convergence

  function RulesOf(zone: Option<seq<Json>>): seq<Json> {
    if zone.Some? then zone.value else []
  }

  ghost predicate ZoneReceived(zone: Option<seq<Json>>) {
    AllReceived(RulesOf(zone))
  }

  lemma WrittenKeepsOrMakes(zone: Option<seq<Json>>, desired: seq<Json>, ref: Json)
    requires AllDesired(desired) && ZoneReceived(zone) && Pass(zone, desired).Some?
    ensures
      var written := Pass(zone, desired).value;
      && AllObjects(written)
      && (Kept(RulesOf(zone), desired, ref, written) || Made(RulesOf(zone), desired, ref, written))
  {
    if zone.Some? {
      MergeKeepsOrMakes(zone.value, desired, ref);
    } else {
      var first := FindIndex(desired, ref);
      if first != -1 {
        DesiredWorks(desired[first]);
        assert MadeFrom(desired, desired[first]) && !Accepts([], desired[first]);
      }
    }
  }

  /** The condition, on the zone before: no desired rule is accepted by a rule without an id, and desired
      rules of one ref either agree or are both accepted. */
  ghost predicate Settles(rules: seq<Json>, desired: seq<Json>)
    requires AllObjects(rules) && AllObjects(desired)
  {
    && (forall i :: 0 <= i < |desired| && Accepts(rules, desired[i]) ==>
          HasId(FirstRule(rules, RefOf(desired[i])).value))
    && forall i, j :: 0 <= i < |desired| && 0 <= j < |desired| && RefOf(desired[i]) == RefOf(desired[j]) ==>
         SameButId(desired[i], desired[j]) || (Accepts(rules, desired[i]) && Accepts(rules, desired[j]))
  }

  /** A pass that wrote, and what the server made of it. */
  ghost predicate Applied(zone: Option<seq<Json>>, desired: seq<Json>, after: seq<Json>) {
    && AllDesired(desired) && ZoneReceived(zone) && (zone.Some? ==> AllObjects(zone.value))
    && Pass(zone, desired).Some? && AllObjects(Pass(zone, desired).value)
    && Stores(Pass(zone, desired).value, after)
  }

  lemma KeptAfter(zone: Option<seq<Json>>, desired: seq<Json>, after: seq<Json>, i: nat)
    requires Applied(zone, desired, after) && i < |desired|
    requires Kept(RulesOf(zone), desired, RefOf(desired[i]), Pass(zone, desired).value)
    ensures Accepts(RulesOf(zone), desired[i])
    ensures Accepts(after, desired[i]) <==> HasId(FirstRule(RulesOf(zone), RefOf(desired[i])).value)
  {
    var ref := RefOf(desired[i]);
    StoredFirst(Pass(zone, desired).value, after, ref);
    var rule, stored := FirstRule(RulesOf(zone), ref).value, FirstRule(after, ref).value;
    KeptIsAcceptedIff(rule, stored, desired[i]);
  }

  lemma MadeAfter(written: seq<Json>, after: seq<Json>, from: Json, desired: Json)
    requires AllObjects(written) && Stores(written, after) && Desired(from) && Desired(desired)
    requires RefOf(from) == RefOf(desired) && MadeFrom(written, from)
    ensures Accepts(after, desired) <==> SameButId(from, desired)
  {
    StoredFirst(written, after, RefOf(from));
    MadeIsAcceptedIff(FirstRule(written, RefOf(from)).value, FirstRule(after, RefOf(from)).value, from, desired);
  }

  lemma AgreeThrough(a: Json, b: Json, c: Json)
    requires a.Obj? && b.Obj? && c.Obj? && SameButId(a, b) && SameButId(b, c)
    ensures SameButId(a, c) && SameButId(b, a)
  {
    forall key | key != "id"
      ensures Meaning(Get(a.members, key)) == Meaning(Get(c.members, key))
      ensures Meaning(Get(b.members, key)) == Meaning(Get(a.members, key))
    {
      assert Meaning(Get(a.members, key)) == Meaning(Get(b.members, key));
    }
  }

  /** A condition met by the zone before makes every desired rule accepted after. */
  lemma SettledIsAccepted(zone: Option<seq<Json>>, desired: seq<Json>, after: seq<Json>, i: nat)
    requires Applied(zone, desired, after) && i < |desired|
    requires Settles(RulesOf(zone), desired)
    ensures Accepts(after, desired[i])
  {
    var written, ref := Pass(zone, desired).value, RefOf(desired[i]);
    WrittenKeepsOrMakes(zone, desired, ref);
    if Kept(RulesOf(zone), desired, ref, written) {
      KeptAfter(zone, desired, after, i);
    } else {
      var k :| 0 <= k < |desired| && RefOf(desired[k]) == ref && MadeFrom(written, desired[k]);
      var m :| 0 <= m < |desired| && RefOf(desired[m]) == ref && !Accepts(RulesOf(zone), desired[m]);
      assert SameButId(desired[k], desired[m]) && SameButId(desired[m], desired[i]);
      AgreeThrough(desired[k], desired[m], desired[i]);
      MadeAfter(written, after, desired[k], desired[i]);
    }
  }

  lemma AcceptedByOne(zone: Option<seq<Json>>, desired: seq<Json>, after: seq<Json>, k: nat, i: nat)
    requires Applied(zone, desired, after) && k < |desired| && i < |desired|
    requires RefOf(desired[k]) == RefOf(desired[i]) && MadeFrom(Pass(zone, desired).value, desired[k])
    requires Accepts(after, desired[i])
    ensures SameButId(desired[k], desired[i])
  {
    MadeAfter(Pass(zone, desired).value, after, desired[k], desired[i]);
  }

  lemma AcceptedHadId(zone: Option<seq<Json>>, desired: seq<Json>, after: seq<Json>, i: nat)
    requires Applied(zone, desired, after) && i < |desired|
    requires forall j :: 0 <= j < |desired| ==> Accepts(after, desired[j])
    requires Accepts(RulesOf(zone), desired[i])
    ensures HasId(FirstRule(RulesOf(zone), RefOf(desired[i])).value)
  {
    var rules, written, ref := RulesOf(zone), Pass(zone, desired).value, RefOf(desired[i]);
    WrittenKeepsOrMakes(zone, desired, ref);
    if Kept(rules, desired, ref, written) {
      KeptAfter(zone, desired, after, i);
    } else {
      var k :| 0 <= k < |desired| && RefOf(desired[k]) == ref && MadeFrom(written, desired[k]);
      var m :| 0 <= m < |desired| && RefOf(desired[m]) == ref && !Accepts(rules, desired[m]);
      AcceptedByOne(zone, desired, after, k, i);
      AcceptedByOne(zone, desired, after, k, m);
      AcceptedSpreads(rules, desired[k], desired[i], desired[m]);
    }
  }

  lemma AcceptedSpreads(rules: seq<Json>, from: Json, a: Json, b: Json)
    requires AllHeld(rules) && Desired(from) && Desired(a) && Desired(b) && RefOf(a) == RefOf(b)
    requires SameButId(from, a) && SameButId(from, b) && Accepts(rules, a)
    ensures Accepts(rules, b)
  {
    AgreeThrough(from, a, a);
    AgreeThrough(a, from, b);
    AcceptedAlike(FirstRule(rules, RefOf(a)).value, a, b);
  }

  lemma AcceptedAgree(zone: Option<seq<Json>>, desired: seq<Json>, after: seq<Json>, i: nat, j: nat)
    requires Applied(zone, desired, after) && i < |desired| && j < |desired|
    requires Accepts(after, desired[i]) && Accepts(after, desired[j]) && RefOf(desired[i]) == RefOf(desired[j])
    ensures SameButId(desired[i], desired[j])
            || (Accepts(RulesOf(zone), desired[i]) && Accepts(RulesOf(zone), desired[j]))
  {
    var written, ref := Pass(zone, desired).value, RefOf(desired[i]);
    WrittenKeepsOrMakes(zone, desired, ref);
    if !Kept(RulesOf(zone), desired, ref, written) {
      var k :| 0 <= k < |desired| && RefOf(desired[k]) == ref && MadeFrom(written, desired[k]);
      AcceptedByOne(zone, desired, after, k, i);
      AcceptedByOne(zone, desired, after, k, j);
      AgreeThrough(desired[k], desired[i], desired[i]);
      AgreeThrough(desired[i], desired[k], desired[j]);
    }
  }

  /** Reconciling converges at once, exactly when it can: whatever rules the zone held, the pass after one
      that applied has nothing to write if and only if that one had nothing to write either, or the zone and
      the desired rules settle. */
  lemma SecondPassIsIdleIff(zone: Option<seq<Json>>, desired: seq<Json>, after: seq<Json>)
    requires AllDesired(desired) && ZoneReceived(zone) && After(zone, desired, after)
    ensures AllReceived(after)
    ensures Pass(Some(after), desired).None? <==>
            Pass(zone, desired).None? || Settles(RulesOf(zone), desired)
  {
    if Pass(zone, desired).Some? {
      MergeIdle(after, desired);
      if Settles(RulesOf(zone), desired) {
        forall i | 0 <= i < |desired| ensures Accepts(after, desired[i]) {
          SettledIsAccepted(zone, desired, after, i);
        }
      }
      if forall i :: 0 <= i < |desired| ==> Accepts(after, desired[i]) {
        IdleSettles(zone, desired, after);
      }
    }
  }

  lemma IdleSettles(zone: Option<seq<Json>>, desired: seq<Json>, after: seq<Json>)
    requires Applied(zone, desired, after)
    requires forall i :: 0 <= i < |desired| ==> Accepts(after, desired[i])
    ensures Settles(RulesOf(zone), desired)
  {
    forall i | 0 <= i < |desired| && Accepts(RulesOf(zone), desired[i])
      ensures HasId(FirstRule(RulesOf(zone), RefOf(desired[i])).value)
    {
      AcceptedHadId(zone, desired, after, i);
    }
    forall i, j | 0 <= i < |desired| && 0 <= j < |desired| && RefOf(desired[i]) == RefOf(desired[j])
      ensures SameButId(desired[i], desired[j])
              || (Accepts(RulesOf(zone), desired[i]) && Accepts(RulesOf(zone), desired[j]))
    {
      AcceptedAgree(zone, desired, after, i, j);
    }
  }

  // ---------------------------------------------------------------- zones that hide nothing

  lemma ParsedWorks(rule: Json)
    requires Parsed(rule)
    ensures Working(rule)
  {
  }

  /** The test in the loop, read off the rule: nothing to do exactly when the current rule has an id and
      agrees with the desired one everywhere else. */
  lemma UpToDateIff(current: Json, desired: Json)
    requires Parsed(current) && Desired(desired)
    ensures DeepEqual(current, WithId(desired, current)) <==> HasId(current) && SameButId(current, desired)
  {
    ParsedWorks(current);
    WorkingAcceptsIff(current, desired);
    PresentIffDefined(current, "id");
  }

  lemma ParsedAcceptsIff(rules: seq<Json>, desired: Json)
    requires AllParsed(rules) && Desired(desired)
    ensures Accepts(rules, desired) <==> UpToDate(rules, desired)
  {
    var rule := FirstRule(rules, RefOf(desired));
    if rule.Some? {
      UpToDateIff(rule.value, desired);
    }
  }

  /** Where no rule hides a member the condition is consistency. */
  lemma ParsedSettlesIff(zone: Option<seq<Json>>, desired: seq<Json>)
    requires AllDesired(desired) && AllParsed(RulesOf(zone))
    ensures Pass(zone, desired).None? || Settles(RulesOf(zone), desired) <==> Consistent(desired)
  {
    var rules := RulesOf(zone);
    forall i | 0 <= i < |desired| ensures Accepts(rules, desired[i]) <==> UpToDate(rules, desired[i]) {
      ParsedAcceptsIff(rules, desired[i]);
    }
    if zone.Some? {
      MergeIdle(zone.value, desired);
    }
    if Pass(zone, desired).None? || Settles(rules, desired) {
      forall i, j | 0 <= i < |desired| && 0 <= j < |desired| && RefOf(desired[i]) == RefOf(desired[j])
        ensures SameButId(desired[i], desired[j])
      {
        if UpToDate(rules, desired[i]) && UpToDate(rules, desired[j]) {
          var rule := FirstRule(rules, RefOf(desired[i])).value;
          AgreeThrough(rule, desired[i], desired[i]);
          AgreeThrough(desired[i], rule, desired[j]);
        }
      }
    }
  }

  /** What an applied pass leaves a consistent desired rule: if the rule it found hid nothing, the desired one
      is in place, with an id. */
  lemma AppliedIsUpToDate(zone: Option<seq<Json>>, desired: seq<Json>, after: seq<Json>, i: nat)
    requires AllDesired(desired) && ZoneReceived(zone) && After(zone, desired, after) && i < |desired|
    requires Consistent(desired)
    requires
      var found := FirstRule(RulesOf(zone), RefOf(desired[i]));
      found.Some? ==> Parsed(found.value)
    ensures AllReceived(after) && UpToDate(after, desired[i])
  {
    var rules, ref := RulesOf(zone), RefOf(desired[i]);
    var found := FirstRule(rules, ref);
    if Pass(zone, desired).None? {
      MergeIdle(zone.value, desired);
      UpToDateIff(found.value, desired[i]);
    } else {
      var written := Pass(zone, desired).value;
      WrittenKeepsOrMakes(zone, desired, ref);
      StoredFirst(written, after, ref);
      if Kept(rules, desired, ref, written) {
        UpToDateIff(found.value, desired[i]);
        AgreeThrough(FirstRule(after, ref).value, found.value, desired[i]);
      } else {
        var k :| 0 <= k < |desired| && RefOf(desired[k]) == ref && MadeFrom(written, desired[k]);
        assert SameButId(desired[k], desired[i]);
        var rule := FirstRule(written, ref).value;
        AgreeThrough(FirstRule(after, ref).value, rule, desired[k]);
        AgreeThrough(FirstRule(after, ref).value, desired[k], desired[i]);
      }
    }
  }

  // ---------------------------------------------------------------- back to the configuration

  predicate QuoteFree(hosts: seq<string>) {
    forall i :: 0 <= i < |hosts| ==> '"' !in hosts[i]
  }

  lemma {:induction false} CutAtQuote(a: string, b: string, x: string, y: string)
    requires '"' !in a && '"' !in b && a + "\"" + x == b + "\"" + y
    ensures a == b && x == y
  {
    var left, right := a + "\"" + x, b + "\"" + y;
    assert left[0] == right[0];
    if a == "" || b == "" {
      assert left[1..] == right[1..];
      assert a == "" ==> left[1..] == x;
      assert b == "" ==> right[1..] == y;
    } else {
      assert left[1..] == a[1..] + "\"" + x && right[1..] == b[1..] + "\"" + y;
      CutAtQuote(a[1..], b[1..], x, y);
      assert a == [a[0]] + a[1..] && b == [b[0]] + b[1..];
    }
  }

  /** Quote-free hosts can be read back from the expression. */
  lemma {:induction false} TestsTellHosts(a: seq<string>, b: seq<string>)
    requires QuoteFree(a) && QuoteFree(b) && HostTests(a) == HostTests(b)
    ensures a == b
    decreases |a|
  {
    if a != [] && b != [] {
      var x, y := MoreTests(a[1..]), MoreTests(b[1..]);
      assert HostTests(a) == TEST + (a[0] + "\"" + x);
      assert HostTests(b) == TEST + (b[0] + "\"" + y);
      assert HostTests(a)[|TEST|..] == a[0] + "\"" + x;
      assert HostTests(b)[|TEST|..] == b[0] + "\"" + y;
      CutAtQuote(a[0], b[0], x, y);
      if a[1..] != [] && b[1..] != [] {
        assert x[4..] == HostTests(a[1..]) && y[4..] == HostTests(b[1..]);
        TestsTellHosts(a[1..], b[1..]);
      }
      assert a == [a[0]] + a[1..] && b == [b[0]] + b[1..];
    }
  }

  lemma ExpressionTellsHosts(a: seq<string>, b: seq<string>)
    requires QuoteFree(a) && QuoteFree(b) && HostExpression(a) == HostExpression(b)
    ensures a == b
  {
    assert HostExpression(a)[1..|HostExpression(a)| - 1] == HostTests(a);
    assert HostExpression(b)[1..|HostExpression(b)| - 1] == HostTests(b);
    TestsTellHosts(a, b);
  }

  lemma ToRuleReads(r: Redirect)
    ensures Get(ToRule(r).members, "ref") == Str(r.ref)
    ensures Get(ToRule(r).members, "description") == Str(r.description)
    ensures Get(ToRule(r).members, "expression") == Str(HostExpression(r.hosts))
    ensures Get(ToRule(r).members, "action_parameters") == Parameters(r)
  {
    var members := ToRule(r).members;
    ToRuleIsDesired(r);
    GetMember(members, 0);
    GetMember(members, 1);
    GetMember(members, 2);
    GetMember(members, 4);
  }

  lemma ParametersTell(a: Redirect, b: Redirect)
    requires Meaning(Parameters(a)) == Meaning(Parameters(b))
    ensures a.targetUrl == b.targetUrl && a.statusCode == b.statusCode
    ensures a.preserveQueryString == b.preserveQueryString
  {
    MemberMeaning(Parameters(a).members, 0);
    MemberMeaning(Parameters(b).members, 0);
    assert Meaning(FromValue(a)) == Meaning(FromValue(b));
    FromValueReads(a);
    FromValueReads(b);
  }

  lemma MemberMeaning(members: seq<Member>, i: nat)
    requires i < |members| && Distinct(members)
    ensures
      var m := MeaningOf(members);
      members[i].key in m && m[members[i].key] == Meaning(members[i].value)
  {
    MeaningKeys(members, members[i].key);
    GetMember(members, i);
  }

  lemma FromValueReads(r: Redirect)
    ensures
      var m := MeaningOf(FromValue(r).members);
      && "target_url" in m && m["target_url"].Node?
      && "value" in m["target_url"].children && m["target_url"].children["value"] == Leaf(Str(r.targetUrl))
      && "status_code" in m && m["status_code"] == Leaf(Num(r.statusCode))
      && "preserve_query_string" in m && m["preserve_query_string"] == Leaf(Bool(r.preserveQueryString))
  {
    MemberMeaning([Member("value", Str(r.targetUrl))], 0);
    MemberMeaning(FromValue(r).members, 0);
    MemberMeaning(FromValue(r).members, 1);
    MemberMeaning(FromValue(r).members, 2);
  }

  /** Two redirects that agree under every key make one rule. */
  lemma SameFieldsSameRule(a: Redirect, b: Redirect)
    requires SameButId(ToRule(a), ToRule(b))
    ensures ToRule(a) == ToRule(b)
  {
    ToRuleReads(a);
    ToRuleReads(b);
    assert Meaning(Get(ToRule(a).members, "ref")) == Meaning(Get(ToRule(b).members, "ref"));
    assert Meaning(Get(ToRule(a).members, "description")) == Meaning(Get(ToRule(b).members, "description"));
    assert Meaning(Get(ToRule(a).members, "expression")) == Meaning(Get(ToRule(b).members, "expression"));
    assert Meaning(Get(ToRule(a).members, "action_parameters")) == Meaning(Get(ToRule(b).members, "action_parameters"));
    ParametersTell(a, b);
  }

  /** Two redirects make the same rule only if they are the same. */
  lemma RulesTellRedirects(a: Redirect, b: Redirect)
    requires QuoteFree(a.hosts) && QuoteFree(b.hosts) && ToRule(a) == ToRule(b)
    ensures a == b
  {
    ToRuleReads(a);
    ToRuleReads(b);
    ParametersTell(a, b);
    ExpressionTellsHosts(a.hosts, b.hosts);
  }

  /** The configuration converges exactly when the zone and the redirects settle; where the zone's rules hide
      nothing, exactly when redirects that share a ref make one rule: run it, apply once, and planning or
      applying again finds no drift. */
  lemma RerunsAreIdleIff(zone: Option<seq<Json>>, redirects: seq<Redirect>, after: seq<Json>)
    requires ZoneReceived(zone) && After(zone, ToRules(redirects), after)
    ensures AllReceived(after)
    ensures Pass(Some(after), ToRules(redirects)).None? <==>
            Pass(zone, ToRules(redirects)).None? || Settles(RulesOf(zone), ToRules(redirects))
    ensures AllParsed(RulesOf(zone)) ==>
              (Pass(Some(after), ToRules(redirects)).None? <==> OneRuleARef(redirects))
  {
    var rules := ToRules(redirects);
    RulesAreDesired(redirects);
    SecondPassIsIdleIff(zone, rules, after);
    if AllParsed(RulesOf(zone)) {
      ParsedSettlesIff(zone, rules);
      OneRuleIsConsistent(redirects);
    }
  }

  predicate OneRuleARef(redirects: seq<Redirect>) {
    forall i, j :: 0 <= i < |redirects| && 0 <= j < |redirects| && redirects[i].ref == redirects[j].ref ==>
      ToRule(redirects[i]) == ToRule(redirects[j])
  }

  lemma RulesAreDesired(redirects: seq<Redirect>)
    ensures AllDesired(ToRules(redirects))
    ensures forall i :: 0 <= i < |redirects| ==> RefOf(ToRules(redirects)[i]) == Str(redirects[i].ref)
  {
    forall i | 0 <= i < |redirects|
      ensures Desired(ToRules(redirects)[i]) && RefOf(ToRules(redirects)[i]) == Str(redirects[i].ref)
    {
      ToRuleIsDesired(redirects[i]);
    }
  }

  lemma OneRuleIsConsistent(redirects: seq<Redirect>)
    ensures Consistent(ToRules(redirects)) <==> OneRuleARef(redirects)
  {
    var rules := ToRules(redirects);
    RulesAreDesired(redirects);
    forall i, j | 0 <= i < |redirects| && 0 <= j < |redirects|
      ensures SameButId(rules[i], rules[j]) <==> ToRule(redirects[i]) == ToRule(redirects[j])
    {
      if SameButId(rules[i], rules[j]) {
        SameFieldsSameRule(redirects[i], redirects[j]);
      }
    }
  }

  // ---------------------------------------------------------------- two inputs it fails on

  const HOME := Redirect("www", "to the site", ["www.epicenter.so"], "https://epicenter.so", 301, true)

  const ELSEWHERE := HOME.(targetUrl := "https://epicenter.sh")

  /** The rule as the server keeps it, with an id of its own. */
  function Stamped(rule: Json, id: string): Json
    requires rule.Obj?
  {
    WithId(rule, Obj([Member("id", Str(id))]))
  }

  lemma StampStores(redirect: Redirect, id: string)
    ensures Parsed(Stamped(ToRule(redirect), id)) && StoresRule(ToRule(redirect), Stamped(ToRule(redirect), id))
  {
    var rule, source := ToRule(redirect), Obj([Member("id", Str(id))]);
    ToRuleIsDesired(redirect);
    CleanObject(source.members);
    GetMember(source.members, 0);
    WithIdHolds(rule, source);
    WithIdWorks(rule, source);
    WithIdReads(rule, source, "id");
    GetMissing(rule.members, "id");
    var stored := Stamped(rule, id);
    forall i | 0 <= i < |stored.members| ensures Told(stored.members[i]) {
      assert i < |rule.members| ==> stored.members[i] == rule.members[i];
    }
  }

  lemma ToRulesOfTwo(a: Redirect, b: Redirect)
    ensures ToRules([a, b]) == [ToRule(a), ToRule(b)]
  {
  }

  lemma TwoStamped(a: Redirect, b: Redirect)
    ensures AllDesired(ToRules([a, b]))
    ensures After(None, ToRules([a, b]), [Stamped(ToRule(a), "1"), Stamped(ToRule(b), "2")])
  {
    ToRulesOfTwo(a, b);
    ToRuleIsDesired(a);
    ToRuleIsDesired(b);
    StampStores(a, "1");
    StampStores(b, "2");
    var written, after := ToRules([a, b]), [Stamped(ToRule(a), "1"), Stamped(ToRule(b), "2")];
    assert AllParsed(after);
    assert StoresRule(written[0], after[0]) && StoresRule(written[1], after[1]);
    assert Stores(written, after);
  }

  /** Two redirects under one ref that make different rules, applied to a zone without rules: the server
      stores both, and the next run writes again. */
  lemma ClashingRedirectsRewrite(a: Redirect, b: Redirect)
    requires a.ref == b.ref && ToRule(a) != ToRule(b)
    ensures
      var after := [Stamped(ToRule(a), "1"), Stamped(ToRule(b), "2")];
      After(None, ToRules([a, b]), after) && AllObjects(after) && Pass(Some(after), ToRules([a, b])).Some?
  {
    TwoStamped(a, b);
    RerunsAreIdleIff(None, [a, b], [Stamped(ToRule(a), "1"), Stamped(ToRule(b), "2")]);
    assert [a, b][0].ref == [a, b][1].ref;
  }

  lemma RulesDiffer()
    ensures ToRule(HOME) != ToRule(ELSEWHERE)
  {
    if ToRule(HOME) == ToRule(ELSEWHERE) {
      ParametersTell(HOME, ELSEWHERE);
    }
  }

  lemma HomeAndElsewhereClash()
    ensures
      var after := [Stamped(ToRule(HOME), "1"), Stamped(ToRule(ELSEWHERE), "2")];
      && After(None, ToRules([HOME, ELSEWHERE]), after) && AllObjects(after)
      && Pass(Some(after), ToRules([HOME, ELSEWHERE])).Some?
  {
    RulesDiffer();
    ClashingRedirectsRewrite(HOME, ELSEWHERE);
  }

  /** The desired rule with its k-th member lost, as a server's rule that owns an empty `__proto__`. */
  function HidingRule(desired: Json, k: nat): Json
    requires desired.Obj? && k < |desired.members|
  {
    WithId(Obj(desired.members[k := Member("__proto__", Obj([]))]), Obj([Member("id", Str("1"))]))
  }

  lemma HidingReads(desired: Json, k: nat, i: nat)
    requires Desired(desired) && k < |desired.members| && !HasKey(desired.members, "__proto__")
    requires i <= |desired.members|
    ensures
      var current := HidingRule(desired, k);
      && i < |current.members| && Proper(current)
      && Read(WithId(desired, current).members, current.members[i].key) == current.members[i].value
  {
    var d, hidden, stamp := desired.members, Member("__proto__", Obj([])), Obj([Member("id", Str("1"))]);
    ReplacedMember(d, k, hidden, k);
    assert !HasKey(d[k := hidden], "id") by {
      assert forall j :: 0 <= j < |d| ==> d[j].key != "id" by {
        assert !HasKey(d, "id");
      }
    }
    WithIdIsProper(d[k := hidden], stamp);
    var current := HidingRule(desired, k);
    GetMember(current.members, |d|);
    WithIdReads(desired, current, current.members[i].key);
    if i < |d| && i != k {
      GetMember(d, i);
      assert HasKey(d, d[i].key) && d[i].key != "id";
    }
  }

  lemma WithIdIsProper(members: seq<Member>, stamp: Json)
    requires Proper(Obj(members)) && !HasKey(members, "id") && stamp == Obj([Member("id", Str("1"))])
    ensures WithId(Obj(members), stamp).members == members + stamp.members
    ensures Proper(WithId(Obj(members), stamp))
  {
    GetMember(stamp.members, 0);
    var all := members + stamp.members;
    forall i, j | 0 <= i < j < |all| ensures all[i].key != all[j].key {
      assert members[i].key != "id";
    }
  }

  /** It is left alone, although what it lost is missing. */
  lemma HidingRuleIsLeftAlone(desired: Json, k: nat)
    requires Desired(desired) && k < |desired.members| && !HasKey(desired.members, "__proto__")
    ensures
      var current := HidingRule(desired, k);
      && Proper(current) && DeepEqual(current, WithId(desired, current)) && !SameButId(current, desired)
  {
    var current, d := HidingRule(desired, k), desired.members;
    HidingReads(desired, k, k);
    forall i | 0 <= i < |current.members|
      ensures DeepEqual(current.members[i].value, Read(WithId(desired, current).members, current.members[i].key))
    {
      HidingReads(desired, k, i);
      DeepEqualSame(current.members[i].value);
    }
    LostMember(desired, k);
    assert d[k].key != "id" && Meaning(Get(current.members, d[k].key)) != Meaning(Get(d, d[k].key));
  }

  lemma LostMember(desired: Json, k: nat)
    requires Desired(desired) && k < |desired.members| && !HasKey(desired.members, "__proto__")
    ensures desired.members[k].key != "id"
    ensures Get(HidingRule(desired, k).members, desired.members[k].key) == Undefined
    ensures Meaning(Get(desired.members, desired.members[k].key)) != Leaf(Undefined)
  {
    var d, key := desired.members, desired.members[k].key;
    GetMember(d, k);
    assert Defined(d[k].value) && HasKey(d, key) && !HasKey(d, "id");
    var current := HidingRule(desired, k);
    forall i | 0 <= i < |current.members| ensures current.members[i].key != key {
      assert i < |d| ==> current.members[i] == if i == k then Member("__proto__", Obj([])) else d[i];
    }
    GetMissing(current.members, key);
  }
}
