/**
 The license-graph guard (scripts/check-license-graph.ts): an iterative depth-first search for an AGPL
 package, and the sweep that runs it from every MIT-compatible package.
 */
module LicenseGraph {
  import opened Prelude

  datatype Pkg = Pkg(name: string, license: string, deps: seq<string>)

  /** `byName`: workspace packages under their own names. */
  type Workspace = map<string, Pkg>

  datatype Hit = Hit(name: string, path: seq<string>)

  // ---------------------------------------------------------------- licenses

  predicate LetterIs(c: char, upper: char) {
    c == upper || (c as int) == (upper as int) + 32
  }

  predicate AgplAt(license: string, i: nat) {
    && i + 4 <= |license|
    && LetterIs(license[i], 'A') && LetterIs(license[i + 1], 'G')
    && LetterIs(license[i + 2], 'P') && LetterIs(license[i + 3], 'L')
  }

  /** /AGPL/i: the four letters anywhere, in either case. */
  predicate IsAgpl(license: string) {
    exists i :: 0 <= i < |license| && AgplAt(license, i)
  }

  /** The MIT-compatible pattern; its dot in `Apache-2.0` matches any character but a line break. */
  predicate IsMitCompatible(license: string) {
    || license in {"MIT", "ISC", "0BSD", "BSD-2-Clause", "BSD-3-Clause", "CC0-1.0"}
    || (|license| == 10 && license[..8] == "Apache-2" && license[9] == '0'
        && license[8] != '\n' && license[8] != '\r' && license[8] != '\U{2028}' && license[8] != '\U{2029}')
  }

  /** These four letters, each in either case. */
  predicate SpellsAgpl(word: string) {
    |word| == 4 && forall k :: 0 <= k < 4 ==> word[k] == "AGPL"[k] || word[k] == "agpl"[k]
  }

  predicate AgplBetween(license: string, before: string, word: string, after: string) {
    license == before + word + after && SpellsAgpl(word)
  }

  lemma AgplSpelled(license: string, i: nat)
    ensures AgplAt(license, i) <==> i + 4 <= |license| && SpellsAgpl(license[i..i + 4])
  {
    if i + 4 <= |license| {
      var word := license[i..i + 4];
      assert word[0] == license[i] && word[1] == license[i + 1];
      assert word[2] == license[i + 2] && word[3] == license[i + 3];
    }
  }

  /** A license is AGPL exactly if those letters stand together somewhere in it. */
  lemma IsAgplIff(license: string)
    ensures IsAgpl(license) <==> exists before, word, after :: AgplBetween(license, before, word, after)
  {
    if i :| 0 <= i < |license| && AgplAt(license, i) {
      AgplSpelled(license, i);
      assert AgplBetween(license, license[..i], license[i..i + 4], license[i + 4..]);
    }
    if before, word, after :| AgplBetween(license, before, word, after) {
      assert license[|before|..|before| + 4] == word;
      AgplSpelled(license, |before|);
    }
  }

  predicate ApacheWith(license: string, c: char) {
    license == "Apache-2" + [c] + "0" && c !in "\n\r\U{2028}\U{2029}"
  }

  predicate LacksG(license: string) {
    'G' !in license && 'g' !in license
  }

  lemma LacksGIsNotAgpl(license: string)
    requires LacksG(license)
    ensures !IsAgpl(license)
  {
    forall i | 0 <= i < |license| ensures !AgplAt(license, i) {
      assert i + 4 <= |license| ==> license[i + 1] in license;
    }
  }

  lemma NoAgplInApache(license: string, c: char)
    requires ApacheWith(license, c)
    ensures !IsAgpl(license)
  {
    assert LacksG("Apache-2");
    forall i | 0 <= i < |license| ensures !AgplAt(license, i) {
      if i + 4 <= |license| && i + 1 < 8 {
        assert license[i + 1] == "Apache-2"[i + 1] && "Apache-2"[i + 1] in "Apache-2";
      }
    }
  }

  lemma NamedLacksG(license: string)
    requires license in {"MIT", "ISC", "0BSD", "BSD-2-Clause", "BSD-3-Clause", "CC0-1.0"}
    ensures LacksG(license)
  {
    assert LacksG("MIT") && LacksG("ISC") && LacksG("0BSD") && LacksG("CC0-1.0");
    assert LacksG("BSD-2-Clause") && LacksG("BSD-3-Clause");
  }

  lemma ApacheIff(license: string)
    requires license !in {"MIT", "ISC", "0BSD", "BSD-2-Clause", "BSD-3-Clause", "CC0-1.0"}
    ensures IsMitCompatible(license) <==> exists c :: ApacheWith(license, c)
  {
    if IsMitCompatible(license) {
      assert license == "Apache-2" + [license[8]] + "0";
      assert ApacheWith(license, license[8]);
    }
    if c :| ApacheWith(license, c) {
      assert license[..8] == "Apache-2" && license[8] == c && license[9] == '0';
    }
  }

  /** The pattern admits six licenses by name and Apache 2.0 with any character for the dot, and nothing it admits is
      AGPL. */
  lemma CompatibleIff(license: string)
    ensures IsMitCompatible(license) <==>
            || license in {"MIT", "ISC", "0BSD", "BSD-2-Clause", "BSD-3-Clause", "CC0-1.0"}
            || exists c :: ApacheWith(license, c)
    ensures IsMitCompatible(license) ==> !IsAgpl(license)
    ensures IsMitCompatible("Apache-2.0") && IsMitCompatible("Apache-2x0")
  {
    assert "Apache-2.0"[..8] == "Apache-2" && "Apache-2x0"[..8] == "Apache-2";
    if license in {"MIT", "ISC", "0BSD", "BSD-2-Clause", "BSD-3-Clause", "CC0-1.0"} {
      NamedLacksG(license);
      LacksGIsNotAgpl(license);
    } else {
      ApacheIff(license);
      if c :| ApacheWith(license, c) {
        NoAgplInApache(license, c);
      }
    }
  }

  // ---------------------------------------------------------------- what the search means

  /** `path` follows dependencies edge by edge: out of `start` first, then out of workspace packages. */
  ghost predicate Chain(ws: Workspace, start: Pkg, path: seq<string>) {
    && |path| >= 2
    && path[0] == start.name
    && path[1] in start.deps
    && forall i :: 1 <= i < |path| - 1 ==> path[i] in ws && path[i + 1] in ws[path[i]].deps
  }

  ghost predicate ReachesBy(ws: Workspace, start: Pkg, path: seq<string>, name: string) {
    Chain(ws, start, path) && path[|path| - 1] == name
  }

  ghost predicate AgplPackage(ws: Workspace, name: string) {
    name in ws && IsAgpl(ws[name].license)
  }

  ghost predicate ReachesAgpl(ws: Workspace, start: Pkg) {
    exists path, name :: ReachesBy(ws, start, path, name) && AgplPackage(ws, name)
  }

  /** No name after the first is visited twice along the path. */
  ghost predicate Acyclic(path: seq<string>) {
    forall i, j :: 1 <= i < j < |path| ==> path[i] != path[j]
  }

  // ---------------------------------------------------------------- the search

  function Names(ws: Workspace, start: Pkg): set<string> {
    (set d | d in start.deps) + (set n, d | n in ws && d in ws[n].deps :: d)
  }

  ghost predicate EntryOk(ws: Workspace, start: Pkg, seen: set<string>, e: Hit) {
    && ReachesBy(ws, start, e.path, e.name)
    && Acyclic(e.path[..|e.path| - 1])
    && forall i :: 1 <= i < |e.path| - 1 ==> e.path[i] in seen
  }

  ghost predicate StackOk(ws: Workspace, start: Pkg, seen: set<string>, stack: seq<Hit>) {
    forall k :: 0 <= k < |stack| ==> EntryOk(ws, start, seen, stack[k])
  }

  ghost predicate OnStack(stack: seq<Hit>, name: string) {
    exists k :: 0 <= k < |stack| && stack[k].name == name
  }

  /** Everything one edge away from the explored part is explored or on the stack, and nothing
      explored is an AGPL package. */
  ghost predicate Frontier(ws: Workspace, start: Pkg, seen: set<string>, stack: seq<Hit>) {
    && (forall d :: d in start.deps ==> d in seen || OnStack(stack, d))
    && (forall n, d :: n in seen && n in ws && d in ws[n].deps ==> d in seen || OnStack(stack, d))
    && (forall n :: n in seen ==> !AgplPackage(ws, n))
  }

  /** With an empty stack the explored set is closed, so every chain stays inside it. */
  lemma {:induction false} ChainStaysSeen(ws: Workspace, start: Pkg, seen: set<string>, path: seq<string>, i: nat)
    requires Frontier(ws, start, seen, []) && Chain(ws, start, path) && 1 <= i < |path|
    ensures path[i] in seen
  {
    if i > 1 {
      ChainStaysSeen(ws, start, seen, path, i - 1);
    }
  }

  lemma ExploredMeansUnreachable(ws: Workspace, start: Pkg, seen: set<string>)
    requires Frontier(ws, start, seen, [])
    ensures !ReachesAgpl(ws, start)
  {
    forall path, name | ReachesBy(ws, start, path, name) ensures !AgplPackage(ws, name) {
      ChainStaysSeen(ws, start, seen, path, |path| - 1);
    }
  }

  /** The dependencies pushed when a package is expanded, in push order. */
  function Extensions(deps: seq<string>, path: seq<string>): (pushed: seq<Hit>)
    ensures |pushed| == |deps|
    ensures forall k :: 0 <= k < |deps| ==> pushed[k] == Hit(deps[k], path + [deps[k]])
  {
    if deps == [] then [] else [Hit(deps[0], path + [deps[0]])] + Extensions(deps[1..], path)
  }

  lemma ExtensionOk(ws: Workspace, start: Pkg, seen: set<string>, e: Hit, d: string)
    requires EntryOk(ws, start, seen, e) && e.name !in seen && e.name in ws && d in ws[e.name].deps
    ensures EntryOk(ws, start, seen + {e.name}, Hit(d, e.path + [d]))
  {
    var path := e.path + [d];
    assert path[..|path| - 1] == e.path;
    forall i, j | 1 <= i < j < |e.path| ensures e.path[i] != e.path[j] {
      if j < |e.path| - 1 {
        assert e.path[..|e.path| - 1][i] != e.path[..|e.path| - 1][j];
      }
    }
    forall i | 1 <= i < |path| - 1 ensures path[i] in ws && path[i + 1] in ws[path[i]].deps {
      if i < |e.path| - 1 {
        assert path[i] == e.path[i] && path[i + 1] == e.path[i + 1];
      }
    }
  }

  lemma PoppedIsAcyclic(ws: Workspace, start: Pkg, seen: set<string>, e: Hit)
    requires EntryOk(ws, start, seen, e) && e.name !in seen
    ensures Acyclic(e.path)
  {
    forall i, j | 1 <= i < j < |e.path| ensures e.path[i] != e.path[j] {
      if j < |e.path| - 1 {
        assert e.path[..|e.path| - 1][i] != e.path[..|e.path| - 1][j];
      }
    }
  }

  lemma SeenGrowsOk(ws: Workspace, start: Pkg, seen: set<string>, stack: seq<Hit>, name: string)
    requires StackOk(ws, start, seen, stack)
    ensures StackOk(ws, start, seen + {name}, stack)
  {
    forall k | 0 <= k < |stack| ensures EntryOk(ws, start, seen + {name}, stack[k]) {
      assert EntryOk(ws, start, seen, stack[k]);
    }
  }

  lemma PushOk(ws: Workspace, start: Pkg, seen: set<string>, rest: seq<Hit>, e: Hit)
    requires StackOk(ws, start, seen, rest) && EntryOk(ws, start, seen, e) && e.name !in seen && e.name in ws
    ensures StackOk(ws, start, seen + {e.name}, rest + Extensions(ws[e.name].deps, e.path))
  {
    SeenGrowsOk(ws, start, seen, rest, e.name);
    var stack := rest + Extensions(ws[e.name].deps, e.path);
    forall k | 0 <= k < |stack| ensures EntryOk(ws, start, seen + {e.name}, stack[k]) {
      if k >= |rest| {
        ExtensionOk(ws, start, seen, e, ws[e.name].deps[k - |rest|]);
      } else {
        assert stack[k] == rest[k];
      }
    }
  }

  lemma PopFrontier(ws: Workspace, start: Pkg, seen: set<string>, stack: seq<Hit>, name: string)
    requires Frontier(ws, start, seen, stack) && stack != [] && stack[|stack| - 1].name == name
    requires name in seen
    ensures Frontier(ws, start, seen, stack[..|stack| - 1])
  {
    forall d | OnStack(stack, d) ensures d in seen || OnStack(stack[..|stack| - 1], d) {
      var k :| 0 <= k < |stack| && stack[k].name == d;
      if k < |stack| - 1 {
        assert stack[..|stack| - 1][k].name == d;
      }
    }
  }

  lemma ExpandFrontier(ws: Workspace, start: Pkg, seen: set<string>, stack: seq<Hit>, pushed: seq<Hit>)
    requires Frontier(ws, start, seen, stack) && stack != []
    requires !AgplPackage(ws, stack[|stack| - 1].name)
    requires stack[|stack| - 1].name in ws ==> forall d :: d in ws[stack[|stack| - 1].name].deps ==> OnStack(pushed, d)
    ensures Frontier(ws, start, seen + {stack[|stack| - 1].name}, stack[..|stack| - 1] + pushed)
  {
    var rest := stack[..|stack| - 1];
    var name := stack[|stack| - 1].name;
    forall d | OnStack(stack, d) ensures d == name || OnStack(rest + pushed, d) {
      var k :| 0 <= k < |stack| && stack[k].name == d;
      if k < |rest| {
        assert (rest + pushed)[k].name == d;
      }
    }
    forall d | OnStack(pushed, d) ensures OnStack(rest + pushed, d) {
      var k :| 0 <= k < |pushed| && pushed[k].name == d;
      assert (rest + pushed)[|rest| + k].name == d;
    }
  }

  lemma ExtensionsCover(deps: seq<string>, path: seq<string>)
    ensures forall d :: d in deps ==> OnStack(Extensions(deps, path), d)
  {
    forall d | d in deps ensures OnStack(Extensions(deps, path), d) {
      var k :| 0 <= k < |deps| && deps[k] == d;
      assert Extensions(deps, path)[k].name == d;
    }
  }

  ghost predicate SearchInv(ws: Workspace, start: Pkg, seen: set<string>, stack: seq<Hit>) {
    seen <= Names(ws, start) && StackOk(ws, start, seen, stack) && Frontier(ws, start, seen, stack)
  }

  lemma NameIsKnown(ws: Workspace, start: Pkg, e: Hit)
    requires ReachesBy(ws, start, e.path, e.name)
    ensures e.name in Names(ws, start)
  {
    if |e.path| > 2 {
      var n := e.path[|e.path| - 2];
      assert n in ws && e.name in ws[n].deps;
    }
  }

  lemma ExploreShrinks(names: set<string>, seen: set<string>, name: string)
    requires name in names && name !in seen
    ensures |names - (seen + {name})| < |names - seen|
  {
    assert names - seen == (names - (seen + {name})) + {name};
  }

  lemma SearchStarts(ws: Workspace, start: Pkg)
    ensures SearchInv(ws, start, {}, Extensions(start.deps, [start.name]))
  {
    ExtensionsCover(start.deps, [start.name]);
  }

  lemma SkipSeen(ws: Workspace, start: Pkg, seen: set<string>, stack: seq<Hit>)
    requires SearchInv(ws, start, seen, stack) && stack != [] && stack[|stack| - 1].name in seen
    ensures SearchInv(ws, start, seen, stack[..|stack| - 1])
  {
    PopFrontier(ws, start, seen, stack, stack[|stack| - 1].name);
  }

  /** Exploring a name that is not an AGPL package: external names have nothing to push. */
  lemma Explore(ws: Workspace, start: Pkg, seen: set<string>, stack: seq<Hit>)
    requires SearchInv(ws, start, seen, stack) && stack != []
    requires stack[|stack| - 1].name !in seen && !AgplPackage(ws, stack[|stack| - 1].name)
    ensures
      var top := stack[|stack| - 1];
      var pushed := if top.name in ws then Extensions(ws[top.name].deps, top.path) else [];
      SearchInv(ws, start, seen + {top.name}, stack[..|stack| - 1] + pushed)
  {
    var top := stack[|stack| - 1];
    var rest := stack[..|stack| - 1];
    assert EntryOk(ws, start, seen, top);
    NameIsKnown(ws, start, top);
    if top.name in ws {
      ExtensionsCover(ws[top.name].deps, top.path);
      ExpandFrontier(ws, start, seen, stack, Extensions(ws[top.name].deps, top.path));
      PushOk(ws, start, seen, rest, top);
    } else {
      ExpandFrontier(ws, start, seen, stack, []);
      SeenGrowsOk(ws, start, seen, rest, top.name);
      assert rest + [] == rest;
    }
  }

  /** The search answers with a hit if and only if some AGPL package is reachable; the path of a hit is
      a real dependency chain from the start to it that repeats no package. It terminates because each
      turn of the loop explores a new name or shortens the stack. */
  method Reaches(ws: Workspace, start: Pkg) returns (hit: Option<Hit>)
    ensures hit.Some? <==> ReachesAgpl(ws, start)
    ensures hit.Some? ==>
              && ReachesBy(ws, start, hit.value.path, hit.value.name)
              && AgplPackage(ws, hit.value.name)
              && Acyclic(hit.value.path)
  {
    var seen: set<string> := {};
    var stack := Extensions(start.deps, [start.name]);
    SearchStarts(ws, start);
    while |stack| > 0
      invariant SearchInv(ws, start, seen, stack)
      decreases |Names(ws, start) - seen|, |stack|
    {
      var top := stack[|stack| - 1];
      assert EntryOk(ws, start, seen, top);
      if top.name in seen {
        SkipSeen(ws, start, seen, stack);
        stack := stack[..|stack| - 1];
        continue;
      }
      NameIsKnown(ws, start, top);
      ExploreShrinks(Names(ws, start), seen, top.name);
      if top.name in ws && IsAgpl(ws[top.name].license) {
        PoppedIsAcyclic(ws, start, seen, top);
        return Some(top);
      }
      Explore(ws, start, seen, stack);
      stack := stack[..|stack| - 1] + if top.name in ws then Extensions(ws[top.name].deps, top.path) else [];
      seen := seen + {top.name};
    }
    assert stack == [];
    ExploredMeansUnreachable(ws, start, seen);
    hit := None;
  }

  // ---------------------------------------------------------------- the sweep

  /** The MIT-compatible packages that reach an AGPL one, in listing order. */
  ghost function Offenders(ws: Workspace, order: seq<string>): seq<Pkg>
    requires forall n :: n in order ==> n in ws
  {
    if order == [] then []
    else
      var before, pkg := order[..|order| - 1], ws[order[|order| - 1]];
      Offenders(ws, before) + if IsMitCompatible(pkg.license) && ReachesAgpl(ws, pkg) then [pkg] else []
  }

  /** One violation each, in order, with a chain from it to an AGPL package. */
  ghost predicate Reported(ws: Workspace, violations: seq<(Pkg, Hit)>, offenders: seq<Pkg>) {
    && |violations| == |offenders|
    && forall i :: 0 <= i < |violations| ==>
         && violations[i].0 == offenders[i]
         && ReachesBy(ws, offenders[i], violations[i].1.path, violations[i].1.name)
         && AgplPackage(ws, violations[i].1.name)
  }

  lemma {:induction false} NoOffenders(ws: Workspace, order: seq<string>)
    requires forall n :: n in order ==> n in ws
    ensures Offenders(ws, order) == [] <==>
            forall n :: n in order && IsMitCompatible(ws[n].license) ==> !ReachesAgpl(ws, ws[n])
  {
    if order != [] {
      var last := |order| - 1;
      assert order == order[..last] + [order[last]];
      NoOffenders(ws, order[..last]);
    }
  }

  /** The guard reports exactly the MIT-compatible packages that can reach an AGPL one, once each and in listing
      order, with a chain that proves it; so it passes exactly when there are none. */
  method CheckLicenses(ws: Workspace, order: seq<string>) returns (violations: seq<(Pkg, Hit)>)
    requires forall n :: n in order <==> n in ws
    ensures violations == [] <==>
              forall n :: n in ws && IsMitCompatible(ws[n].license) ==> !ReachesAgpl(ws, ws[n])
    ensures Reported(ws, violations, Offenders(ws, order))
  {
    violations := [];
    for i := 0 to |order|
      invariant Reported(ws, violations, Offenders(ws, order[..i]))
    {
      var pkg := ws[order[i]];
      assert order[..i + 1][..i] == order[..i];
      if IsMitCompatible(pkg.license) {
        var hit := Reaches(ws, pkg);
        if hit.Some? {
          violations := violations + [(pkg, hit.value)];
        }
      }
    }
    assert order[..|order|] == order;
    NoOffenders(ws, order);
  }
}
