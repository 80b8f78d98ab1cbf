/**
 POSIX paths as segment lists, and the two containment tests of the program: the relative-path test of
 apps/epicenter/src/static-assets.ts (`isContained`) and the equal-or-prefix test of
 apps/local-books/src/app.ts (`serveStatic`). `resolve`, `join` and `relative` of node:path are given by
 their segment meaning (dot segments as in section 5.2.4 of RFC 3986).
 */
module Paths {
  import opened Strings

  /** `text.split('/')`: always at least one piece. */
  function Split(text: string): (pieces: seq<string>)
    ensures pieces != []
    ensures forall i :: 0 <= i < |pieces| ==> '/' !in pieces[i]
  {
    if text == "" then [""]
    else if text[0] == '/' then [""] + Split(text[1..])
    else
      var rest := Split(text[1..]);
      [[text[0]] + rest[0]] + rest[1..]
  }

  /** `pieces.join('/')`. */
  function Join(pieces: seq<string>): string {
    if pieces == [] then ""
    else if |pieces| == 1 then pieces[0]
    else pieces[0] + "/" + Join(pieces[1..])
  }

  lemma {:induction false} SplitConcat(a: string, b: string)
    ensures Split(a + "/" + b) == Split(a) + Split(b)
  {
    if a == "" {
      assert (a + "/" + b)[1..] == b;
    } else {
      assert (a + "/" + b)[0] == a[0] && (a + "/" + b)[1..] == a[1..] + "/" + b;
      SplitConcat(a[1..], b);
    }
  }

  lemma {:induction false} SplitOne(piece: string)
    requires '/' !in piece
    ensures Split(piece) == [piece]
  {
    if piece != "" {
      assert piece[0] != '/' && piece == [piece[0]] + piece[1..];
      SplitOne(piece[1..]);
    }
  }

  lemma {:induction false} SplitJoin(pieces: seq<string>)
    requires pieces != [] && forall i :: 0 <= i < |pieces| ==> '/' !in pieces[i]
    ensures Split(Join(pieces)) == pieces
  {
    SplitOne(pieces[0]);
    if |pieces| > 1 {
      SplitConcat(pieces[0], Join(pieces[1..]));
      SplitJoin(pieces[1..]);
    }
  }

  lemma {:induction false} JoinConcat(a: seq<string>, b: seq<string>)
    requires a != [] && b != []
    ensures Join(a + b) == Join(a) + "/" + Join(b)
  {
    if |a| > 1 {
      assert (a + b)[1..] == a[1..] + b;
      JoinConcat(a[1..], b);
    } else {
      assert (a + b)[1..] == b;
    }
  }

  // ---------------------------------------------------------------- normalised absolute paths

  predicate Plain(segment: string) {
    segment != "" && segment != "." && segment != ".." && '/' !in segment
  }

  /** The segments of a normalised absolute path; none for the root. */
  predicate Normal(segments: seq<string>) {
    forall i :: 0 <= i < |segments| ==> Plain(segments[i])
  }

  function PathOf(segments: seq<string>): string {
    "/" + Join(segments)
  }

  /** Walk the pieces of a path: empty and dot pieces stay, a dot-dot piece climbs, never above the root. */
  function Walk(at: seq<string>, pieces: seq<string>): seq<string>
    decreases |pieces|
  {
    if pieces == [] then at
    else if pieces[0] == "" || pieces[0] == "." then Walk(at, pieces[1..])
    else if pieces[0] == ".." then Walk(if at == [] then [] else at[..|at| - 1], pieces[1..])
    else Walk(at + [pieces[0]], pieces[1..])
  }

  lemma {:induction false} WalkIsNormal(at: seq<string>, pieces: seq<string>)
    requires Normal(at) && forall i :: 0 <= i < |pieces| ==> '/' !in pieces[i]
    ensures Normal(Walk(at, pieces))
    decreases |pieces|
  {
    if pieces != [] {
      var next :=
        if pieces[0] == "" || pieces[0] == "." then at
        else if pieces[0] == ".." then (if at == [] then [] else at[..|at| - 1])
        else at + [pieces[0]];
      WalkIsNormal(next, pieces[1..]);
    }
  }

  /** Without dot-dot pieces the walk only descends. */
  lemma {:induction false} WalkDescends(at: seq<string>, pieces: seq<string>)
    requires forall i :: 0 <= i < |pieces| ==> Plain(pieces[i])
    ensures Walk(at, pieces) == at + pieces
    decreases |pieces|
  {
    if pieces != [] {
      assert Plain(pieces[0]);
      WalkDescends(at + [pieces[0]], pieces[1..]);
      assert at + [pieces[0]] + pieces[1..] == at + pieces;
    }
  }

  // ---------------------------------------------------------------- the relative-path test

  function CommonPrefix(a: seq<string>, b: seq<string>): (k: nat)
    ensures k <= |a| && k <= |b|
    ensures a[..k] == b[..k]
    ensures k < |a| && k < |b| ==> a[k] != b[k]
  {
    if a == [] || b == [] || a[0] != b[0] then 0 else 1 + CommonPrefix(a[1..], b[1..])
  }

  function Ups(n: nat): (ups: seq<string>)
    ensures |ups| == n && forall i :: 0 <= i < n ==> ups[i] == ".."
  {
    if n == 0 then [] else [".."] + Ups(n - 1)
  }

  /** `relative(from, to)` of two normalised absolute paths. */
  function Relative(from: seq<string>, to: seq<string>): string {
    var k := CommonPrefix(from, to);
    Join(Ups(|from| - k) + to[k..])
  }

  /** `isContained`: the relative path is not "..", does not climb first, and is not absolute. */
  predicate IsContained(root: seq<string>, path: seq<string>) {
    var fromRoot := Relative(root, path);
    fromRoot != ".." && !StartsWith(fromRoot, "../") && !StartsWith(fromRoot, "/")
  }

  lemma UpThenSlash()
    ensures "../" == ".." + "/" && '/' !in ".."
  {
  }

  lemma ClimbingJoin(pieces: seq<string>)
    requires pieces != [] && forall i :: 0 <= i < |pieces| ==> '/' !in pieces[i]
    requires Join(pieces) == ".." || StartsWith(Join(pieces), "../")
    ensures pieces[0] == ".."
  {
    SplitJoin(pieces);
    UpThenSlash();
    FirstSegment("..", "../", Join(pieces), pieces);
  }

  lemma FirstSegment(first: string, lead: string, text: string, pieces: seq<string>)
    requires '/' !in first && lead == first + "/" && (text == first || StartsWith(text, lead))
    requires Split(text) == pieces
    ensures pieces[0] == first
  {
    SplitOne(first);
    if text != first {
      var rest := text[|first| + 1..];
      assert text == first + "/" + rest;
      SplitConcat(first, rest);
    }
  }

  lemma JoinClimbs(pieces: seq<string>)
    requires pieces != [] && forall i :: 0 <= i < |pieces| ==> '/' !in pieces[i]
    ensures (Join(pieces) == ".." || StartsWith(Join(pieces), "../")) <==> pieces[0] == ".."
  {
    if Join(pieces) == ".." || StartsWith(Join(pieces), "../") {
      ClimbingJoin(pieces);
    }
    if pieces[0] == ".." && |pieces| > 1 {
      assert StartsWith(Join(pieces), "../");
    }
  }

  lemma JoinIsRelative(pieces: seq<string>)
    requires forall i :: 0 <= i < |pieces| ==> '/' !in pieces[i] && pieces[i] != ""
    ensures !StartsWith(Join(pieces), "/")
  {
    if pieces != [] {
      assert pieces[0] != "" && pieces[0][0] != '/';
      assert Join(pieces)[0] == pieces[0][0];
    }
  }

  function Steps(root: seq<string>, path: seq<string>): seq<string> {
    var k := CommonPrefix(root, path);
    Ups(|root| - k) + path[k..]
  }

  lemma StepsAreWhole(root: seq<string>, path: seq<string>)
    requires Normal(path)
    ensures forall i :: 0 <= i < |Steps(root, path)| ==> '/' !in Steps(root, path)[i] && Steps(root, path)[i] != ""
  {
    var k := CommonPrefix(root, path);
    var ups := Ups(|root| - k);
    forall i | 0 <= i < |Steps(root, path)| ensures '/' !in Steps(root, path)[i] && Steps(root, path)[i] != "" {
      if i < |ups| {
        assert Steps(root, path)[i] == "..";
      } else {
        assert Steps(root, path)[i] == path[i - |ups| + k] && Plain(path[i - |ups| + k]);
      }
    }
  }

  lemma StepsClimb(root: seq<string>, path: seq<string>)
    requires Normal(path)
    ensures Steps(root, path) != [] ==> (Steps(root, path)[0] == ".." <==> CommonPrefix(root, path) < |root|)
    ensures Steps(root, path) == [] ==> CommonPrefix(root, path) == |root|
  {
    var k := CommonPrefix(root, path);
    if k == |root| && k < |path| {
      assert Steps(root, path)[0] == path[k] && Plain(path[k]);
    }
  }

  lemma CommonIsPrefix(root: seq<string>, path: seq<string>)
    ensures CommonPrefix(root, path) == |root| <==> root <= path
  {
    if root <= path {
      PrefixIsCommon(root, path);
    }
  }

  /** The relative-path test holds exactly of the root and what lies below it, names such as "..foo"
      included. */
  lemma ContainedIffPrefix(root: seq<string>, path: seq<string>)
    requires Normal(root) && Normal(path)
    ensures IsContained(root, path) <==> root <= path
  {
    StepsAreWhole(root, path);
    StepsClimb(root, path);
    CommonIsPrefix(root, path);
    JoinIsRelative(Steps(root, path));
    if Steps(root, path) != [] {
      JoinClimbs(Steps(root, path));
    }
  }

  lemma {:induction false} PrefixIsCommon(a: seq<string>, b: seq<string>)
    requires a <= b
    ensures CommonPrefix(a, b) == |a|
  {
    if a != [] {
      assert a[0] == b[0] && a[1..] <= b[1..];
      PrefixIsCommon(a[1..], b[1..]);
    }
  }

  // ---------------------------------------------------------------- the prefix test

  /** `target === base || target.startsWith(base + sep)`. */
  predicate WithinDist(base: string, target: string) {
    target == base || StartsWith(target, base + "/")
  }

  /** The target as `join` spells it: a trailing slash of the request survives. */
  function Spelled(segments: seq<string>, trailing: bool): string {
    PathOf(segments) + if trailing && segments != [] then "/" else ""
  }

  /** The pieces that name something. */
  function Named(pieces: seq<string>): seq<string> {
    if pieces == [] then [] else (if pieces[0] == "" then [] else [pieces[0]]) + Named(pieces[1..])
  }

  lemma {:induction false} NamedConcat(a: seq<string>, b: seq<string>)
    ensures Named(a + b) == Named(a) + Named(b)
  {
    if a == [] {
      assert a + b == b;
    } else {
      assert (a + b)[1..] == a[1..] + b;
      NamedConcat(a[1..], b);
    }
  }

  lemma {:induction false} NamedNormal(segments: seq<string>)
    requires Normal(segments)
    ensures Named(segments) == segments
  {
    if segments != [] {
      assert Plain(segments[0]);
      NamedNormal(segments[1..]);
    }
  }

  /** A path read back: splitting it and dropping empty pieces gives its segments. */
  lemma PathReadsBack(segments: seq<string>)
    requires Normal(segments)
    ensures Named(Split(PathOf(segments))) == segments
  {
    assert PathOf(segments) == "" + "/" + Join(segments);
    SplitConcat("", Join(segments));
    NamedConcat([""], Split(Join(segments)));
    if segments != [] {
      SplitJoin(segments);
      NamedNormal(segments);
    }
  }

  lemma SpelledReadsBack(segments: seq<string>, trailing: bool)
    requires Normal(segments)
    ensures Named(Split(Spelled(segments, trailing))) == segments
  {
    PathReadsBack(segments);
    if trailing && segments != [] {
      SplitConcat(PathOf(segments), "");
      assert Spelled(segments, trailing) == PathOf(segments) + "/" + "";
      NamedConcat(Split(PathOf(segments)), [""]);
    } else {
      assert Spelled(segments, trailing) == PathOf(segments);
    }
  }

  lemma OneLeadingSlash(segments: seq<string>, trailing: bool)
    requires Normal(segments)
    ensures !StartsWith(Spelled(segments, trailing), "//")
  {
    if segments != [] {
      assert Plain(segments[0]) && segments[0][0] != '/';
      assert Spelled(segments, trailing)[1] == segments[0][0];
    }
  }

  lemma PrefixSpells(base: seq<string>, target: seq<string>, trailing: bool)
    requires Normal(target) && base != [] && base <= target
    ensures WithinDist(PathOf(base), Spelled(target, trailing))
  {
    var rest := target[|base|..];
    assert target == base + rest;
    if rest != [] {
      JoinConcat(base, rest);
      assert PathOf(target) == PathOf(base) + "/" + Join(rest);
      assert StartsWith(Spelled(target, trailing), PathOf(base) + "/");
    } else {
      assert target == base;
    }
  }

  lemma WithinMeansPrefix(base: seq<string>, target: seq<string>, trailing: bool)
    requires Normal(base) && Normal(target) && WithinDist(PathOf(base), Spelled(target, trailing))
    ensures base <= target && (base == [] ==> target == [])
  {
    var b, t := PathOf(base), Spelled(target, trailing);
    PathReadsBack(base);
    SpelledReadsBack(target, trailing);
    OneLeadingSlash(target, trailing);
    if StartsWith(t, b + "/") {
      var more := t[|b| + 1..];
      assert t == b + "/" + more;
      SplitConcat(b, more);
      NamedConcat(Split(b), Split(more));
      assert base == [] ==> b + "/" == "//";
    }
  }

  /** The prefix test holds exactly of the base and what lies below it, if the base is not the root; of
      a root base it admits the root alone. */
  lemma PrefixTestIffPrefix(base: seq<string>, target: seq<string>, trailing: bool)
    requires Normal(base) && Normal(target)
    ensures WithinDist(PathOf(base), Spelled(target, trailing)) <==> base <= target && (base == [] ==> target == [])
  {
    if WithinDist(PathOf(base), Spelled(target, trailing)) {
      WithinMeansPrefix(base, target, trailing);
    }
    if base != [] && base <= target {
      PrefixSpells(base, target, trailing);
    }
    if base == [] && target == [] {
      assert Spelled(target, trailing) == PathOf(base) + "";
    }
  }

  /** On a base other than the root the two tests are one. */
  lemma TestsAgree(base: seq<string>, path: seq<string>)
    requires Normal(base) && Normal(path)
    ensures (IsContained(base, path) <==> WithinDist(PathOf(base), PathOf(path))) <==> (base != [] || path == [])
  {
    ContainedIffPrefix(base, path);
    PrefixTestIffPrefix(base, path, false);
    assert Spelled(path, false) == PathOf(path);
  }

  /** What `serveStatic` decides for a request path: `join` walks the request below the built SPA, and
      the file is looked up only if the walk ended inside it. */
  function Target(dist: seq<string>, pathname: string): seq<string> {
    Walk(dist, Split(if pathname == "/" then "/index.html" else pathname))
  }

  lemma {:induction false} WalkOn(at: seq<string>, down: seq<string>, more: seq<string>)
    requires Normal(down)
    ensures Walk(at, down + more) == Walk(at + down, more)
    decreases |down|
  {
    if down == [] {
      assert down + more == more && at + down == at;
    } else {
      assert Plain(down[0]);
      assert (down + more)[0] == down[0] && (down + more)[1..] == down[1..] + more;
      WalkOn(at + [down[0]], down[1..], more);
      assert at + [down[0]] + down[1..] == at + down;
    }
  }

  lemma {:induction false} WalkUp(at: seq<string>, n: nat)
    ensures Walk(at, Ups(n)) == at[..if n < |at| then |at| - n else 0]
  {
    if n > 0 {
      assert Ups(n)[1..] == Ups(n - 1);
      WalkUp(if at == [] then [] else at[..|at| - 1], n - 1);
    } else {
      assert at[..|at|] == at;
    }
  }

  /** Walking down some segments and then up `n` times ends that many short of where it went, never above the
      root. */
  lemma WalkDownAndUp(at: seq<string>, down: seq<string>, n: nat)
    requires Normal(down)
    ensures
      var reached := at + down;
      Walk(at, down + Ups(n)) == reached[..if n < |reached| then |reached| - n else 0]
  {
    WalkOn(at, down, Ups(n));
    WalkUp(at + down, n);
  }

  /** A request for named segments is looked up at exactly those below the built files, and one for the root at the
      index. */
  lemma TargetIsNamed(dist: seq<string>, segments: seq<string>)
    requires Normal(segments)
    ensures Target(dist, "/" + Join(segments)) == dist + if segments == [] then ["index.html"] else segments
  {
    if segments == [] {
      IndexSplits();
      IndexIsPlain();
      WalkDescends(dist, ["index.html"]);
      assert ["", "index.html"][1..] == ["index.html"];
    } else {
      assert Plain(segments[0]);
      assert "/" + Join(segments) == "" + "/" + Join(segments);
      SplitConcat("", Join(segments));
      SplitJoin(segments);
      WalkDescends(dist, segments);
      assert ([""] + segments)[1..] == segments;
    }
  }

  lemma ServesOnlyInside(dist: seq<string>, pathname: string, trailing: bool)
    requires Normal(dist)
    ensures Normal(Target(dist, pathname))
    ensures WithinDist(PathOf(dist), Spelled(Target(dist, pathname), trailing)) <==>
            dist <= Target(dist, pathname) && (dist == [] ==> Target(dist, pathname) == [])
  {
    WalkIsNormal(dist, Split(if pathname == "/" then "/index.html" else pathname));
    PrefixTestIffPrefix(dist, Target(dist, pathname), trailing);
  }

  lemma IndexSplits()
    ensures Split("/index.html") == ["", "index.html"]
  {
    assert "/index.html"[1..] == "index.html";
    SplitOne("index.html");
  }

  lemma WalksToIndex(pieces: seq<string>)
    requires pieces == ["", "index.html"]
    ensures Walk([], pieces) == ["index.html"]
  {
    assert pieces[1..] == ["index.html"];
    IndexIsPlain();
    WalkDescends([], ["index.html"]);
  }

  lemma IndexIsPlain()
    ensures Plain("index.html")
  {
  }

  /** Served from the root directory, a file right below it is refused, which the other test would admit. */
  lemma RootRefusesItsFiles()
    ensures Target([], "/index.html") == ["index.html"]
    ensures !WithinDist(PathOf([]), Spelled(Target([], "/index.html"), false))
    ensures IsContained([], Target([], "/index.html"))
  {
    IndexSplits();
    WalksToIndex(Split("/index.html"));
    IndexIsPlain();
    PrefixTestIffPrefix([], ["index.html"], false);
    ContainedIffPrefix([], ["index.html"]);
  }
}
