/**
 Path scopes of the work coordinator (pipeline/a2a_coordination.py).

 A scope is a relative POSIX path that is either exact or, when its last part is "**", a tree.
 `Normalize` is `_scope`, `Contains` is `_scope_contains` and `PathAllowed` is `_path_allowed`.
 */
module Scopes {
  import opened Common

  datatype ScopeError = InvalidPathScope | ProtectedPathScope

  // ---------------------------------------------------------------- POSIX parts

  /** The pieces of `s` between slashes, empty pieces included. */
  function Split(s: string): (pieces: seq<string>)
    ensures |pieces| >= 1
  {
    if s == "" then [""]
    else
      var rest := Split(s[1..]);
      if s[0] == '/' then [""] + rest else [[s[0]] + rest[0]] + rest[1..]
  }

  function Join(parts: seq<string>): string {
    if |parts| == 0 then ""
    else if |parts| == 1 then parts[0]
    else parts[0] + "/" + Join(parts[1..])
  }

  function DropTrivial(pieces: seq<string>): seq<string> {
    if |pieces| == 0 then []
    else if pieces[0] == "" || pieces[0] == "." then DropTrivial(pieces[1..])
    else [pieces[0]] + DropTrivial(pieces[1..])
  }

  /** `PurePosixPath(s).parts` of a relative path: empty and "." pieces vanish. */
  function Parts(s: string): seq<string> {
    DropTrivial(Split(s))
  }

  predicate Wild(part: string) {
    '*' in part || '?' in part || '[' in part
  }

  function WildCount(parts: seq<string>): nat {
    if |parts| == 0 then 0 else (if Wild(parts[0]) then 1 else 0) + WildCount(parts[1..])
  }

  predicate IsAbsolute(value: string) {
    value != "" && value[0] == '/'
  }

  function CheckParts(parts: seq<string>): Result<string, ScopeError> {
    if parts == [] || ".." in parts then
      Err(InvalidPathScope)
    else if ".git" in parts || ".formalspecgen" in parts then
      Err(ProtectedPathScope)
    else if WildCount(parts) > 0 && !(WildCount(parts) == 1 && parts[|parts| - 1] == "**") then
      Err(InvalidPathScope)
    else
      Ok(Join(parts))
  }

  function Normalize(value: string): Result<string, ScopeError> {
    if IsAbsolute(value) then Err(InvalidPathScope) else CheckParts(Parts(value))
  }

  /** A normalised scope: the only scopes a work item, a grant or a worker profile holds. */
  predicate ValidScope(s: string) {
    Normalize(s) == Ok(s)
  }

  // ---------------------------------------------------------------- matching

  predicate StartsWith(s: string, prefix: string) {
    |prefix| <= |s| && s[..|prefix|] == prefix
  }

  predicate IsTree(scope: string) {
    |scope| >= 3 && scope[|scope| - 3..] == "/**"
  }

  function TrimSlashes(s: string): string {
    if s != "" && s[|s| - 1] == '/' then TrimSlashes(s[..|s| - 1]) else s
  }

  /** First component of `_scope_prefix`: the directory of a tree, or the exact path itself. */
  function Root(scope: string): string {
    if IsTree(scope) then TrimSlashes(scope[..|scope| - 3]) else scope
  }

  predicate Contains(container: string, candidate: string) {
    if !IsTree(container) then
      !IsTree(candidate) && Root(container) == Root(candidate)
    else
      Root(candidate) == Root(container) || StartsWith(Root(candidate), Root(container) + "/")
  }

  /** `fnmatch.fnmatchcase` for '*', '?' and literals; normalised trees hold no '[' class. */
  predicate FnMatch(path: string, pattern: string)
    decreases |path| + |pattern|
  {
    if pattern == "" then path == ""
    else if pattern[0] == '*' then
      FnMatch(path, pattern[1..]) || (path != "" && FnMatch(path[1..], pattern))
    else
      path != "" && (pattern[0] == '?' || pattern[0] == path[0]) && FnMatch(path[1..], pattern[1..])
  }

  predicate Allows(scope: string, path: string) {
    if IsTree(scope) then FnMatch(path, scope) else path == scope
  }

  predicate PathAllowed(path: string, scopes: set<string>) {
    exists scope | scope in scopes :: Allows(scope, path)
  }

  // ---------------------------------------------------------------- normalisation

  ghost predicate CleanPart(part: string) {
    part != "" && part != "." && '/' !in part
  }

  ghost predicate CleanParts(parts: seq<string>) {
    forall i | 0 <= i < |parts| :: CleanPart(parts[i])
  }

  lemma SplitPiecesHaveNoSlash(s: string)
    ensures forall i | 0 <= i < |Split(s)| :: '/' !in Split(s)[i]
  {
    if s != "" {
      SplitPiecesHaveNoSlash(s[1..]);
    }
  }

  lemma DropTrivialIsClean(pieces: seq<string>)
    requires forall i | 0 <= i < |pieces| :: '/' !in pieces[i]
    ensures CleanParts(DropTrivial(pieces))
  {
    if |pieces| > 0 {
      DropTrivialIsClean(pieces[1..]);
    }
  }

  lemma DropTrivialKeepsClean(parts: seq<string>)
    requires CleanParts(parts)
    ensures DropTrivial(parts) == parts
  {
    if |parts| > 0 {
      assert CleanPart(parts[0]);
      assert forall i | 0 <= i < |parts[1..]| :: parts[1..][i] == parts[i + 1];
      DropTrivialKeepsClean(parts[1..]);
    }
  }

  lemma {:induction false} SplitPrefix(part: string, rest: string)
    requires '/' !in part
    ensures Split(part + "/" + rest) == [part] + Split(rest)
  {
    var whole := part + "/" + rest;
    if part == "" {
      assert whole[1..] == rest;
    } else {
      assert whole[1..] == part[1..] + "/" + rest;
      SplitPrefix(part[1..], rest);
      assert [part[0]] + part[1..] == part;
    }
  }

  lemma {:induction false} SplitPlain(part: string)
    requires '/' !in part
    ensures Split(part) == [part]
  {
    if part != "" {
      SplitPlain(part[1..]);
      assert [part[0]] + part[1..] == part;
    }
  }

  lemma {:induction false} SplitJoin(parts: seq<string>)
    requires |parts| >= 1 && CleanParts(parts)
    ensures Split(Join(parts)) == parts
  {
    assert CleanPart(parts[0]);
    if |parts| == 1 {
      SplitPlain(parts[0]);
    } else {
      assert forall i | 0 <= i < |parts[1..]| :: parts[1..][i] == parts[i + 1];
      SplitJoin(parts[1..]);
      SplitPrefix(parts[0], Join(parts[1..]));
    }
  }

  /** Splitting what was joined gives the same parts back. */
  lemma PartsOfJoin(parts: seq<string>)
    requires |parts| >= 1 && CleanParts(parts)
    ensures Parts(Join(parts)) == parts
    ensures Join(parts) != "" && !IsAbsolute(Join(parts))
  {
    SplitJoin(parts);
    DropTrivialKeepsClean(parts);
    assert CleanPart(parts[0]);
    assert Join(parts)[0] == parts[0][0];
    assert parts[0][0] in parts[0];
  }

  lemma PartsAreClean(s: string)
    ensures CleanParts(Parts(s))
  {
    SplitPiecesHaveNoSlash(s);
    DropTrivialIsClean(Split(s));
  }

  /** Reading a stored work item normalises its scopes again; that changes nothing. */
  lemma NormalizeIdempotent(value: string)
    requires Normalize(value).Ok?
    ensures ValidScope(Normalize(value).value)
  {
    var parts := Parts(value);
    PartsAreClean(value);
    PartsOfJoin(parts);
    assert Normalize(Join(parts)) == CheckParts(parts);
  }

  lemma {:induction false} NoneWild(parts: seq<string>)
    ensures WildCount(parts) == 0 <==> forall k | 0 <= k < |parts| :: !Wild(parts[k])
  {
    hide Wild;
    if |parts| > 0 {
      NoneWild(parts[1..]);
      assert parts == [parts[0]] + parts[1..];
    }
  }

  /**
   Exactly which texts are scopes: relative, not empty, never upwards or into protected metadata, and
   without wildcards but for a last part `**`. The scope is the text with its trivial parts dropped.
   */
  lemma NormalizeExact(value: string)
    ensures var parts := Parts(value);
            var relative := parts != [] && !(value != "" && value[0] == '/') && ".." !in parts;
            var guarded := ".git" in parts || ".formalspecgen" in parts;
            && (Normalize(value).Ok? <==>
                  && relative && !guarded
                  && forall k | 0 <= k < |parts| ::
                       || ('*' !in parts[k] && '?' !in parts[k] && '[' !in parts[k])
                       || (k == |parts| - 1 && parts[k] == "**"))
            && (Normalize(value).Ok? ==> Normalize(value).value == Join(parts))
            && (Normalize(value) == Err(ProtectedPathScope) <==> relative && guarded)
  {
    var parts := Parts(value);
    if parts != [] {
      var init, last := parts[..|parts| - 1], parts[|parts| - 1];
      assert parts == init + [last];
      WildCountSnoc(init, last);
      NoneWild(init);
      NoneWild(parts);
    }
    hide Parts, Join, WildCount;
  }

  lemma {:induction false} JoinSnoc(parts: seq<string>, last: string)
    requires |parts| >= 1
    ensures Join(parts + [last]) == Join(parts) + "/" + last
  {
    var longer := parts + [last];
    if |parts| > 1 {
      assert longer[1..] == parts[1..] + [last];
      JoinSnoc(parts[1..], last);
    } else {
      assert longer[1..] == [last];
    }
  }

  lemma {:induction false} WildCountSnoc(parts: seq<string>, last: string)
    ensures WildCount(parts + [last]) == WildCount(parts) + (if Wild(last) then 1 else 0)
  {
    var longer := parts + [last];
    if |parts| > 0 {
      assert longer[1..] == parts[1..] + [last];
      WildCountSnoc(parts[1..], last);
    } else {
      assert longer[1..] == [];
    }
  }

  lemma {:induction false} UnwildJoin(parts: seq<string>)
    requires WildCount(parts) == 0
    ensures !Wild(Join(parts))
  {
    if |parts| > 1 {
      UnwildJoin(parts[1..]);
    }
  }

  /** A valid tree is some clean, wildcard-free directory followed by a slash and two stars. */
  lemma {:induction false} TreeShape(scope: string) returns (dir: seq<string>)
    requires ValidScope(scope) && IsTree(scope)
    ensures |dir| >= 1 && CleanParts(dir) && WildCount(dir) == 0
    ensures ".." !in dir && ".git" !in dir && ".formalspecgen" !in dir
    ensures scope == Join(dir) + "/**" && Root(scope) == Join(dir) && !Wild(Root(scope))
  {
    var parts := Parts(scope);
    PartsAreClean(scope);
    var last := parts[|parts| - 1];
    dir := parts[..|parts| - 1];
    assert parts == dir + [last];
    assert CleanPart(last);
    WildCountSnoc(dir, last);
    assert scope[|scope| - 3..][0] == scope[|scope| - 3];
    assert '/' in scope;
    assert |dir| == 0 ==> scope == last;
    JoinSnoc(dir, last);
    assert scope == Join(dir) + "/" + last;
    LastOfTree(scope, Join(dir), last);
    assert "/" + "**" == "/**";
    assert scope == Join(dir) + "/**";
    UnwildJoin(dir);
    assert scope[..|scope| - 3] == Join(dir);
    assert CleanParts(dir);
    JoinNotSlashEnded(dir);
  }

  lemma LastOfTree(scope: string, dir: string, last: string)
    requires scope == dir + "/" + last && IsTree(scope) && CleanPart(last)
    ensures last == "**"
  {
    var n := |scope|;
    assert scope[n - 3] == '/' && scope[n - 2] == '*' && scope[n - 1] == '*' by {
      assert scope[n - 3..] == "/**";
      assert scope[n - 3..][0] == scope[n - 3] && scope[n - 3..][1] == scope[n - 2] &&
          scope[n - 3..][2] == scope[n - 1];
    }
    assert forall i | |dir| < i < n :: scope[i] == last[i - |dir| - 1] && last[i - |dir| - 1] in last;
    assert scope[|dir|] == '/';
    assert |dir| == n - 3;
    assert last == scope[n - 2..] == [scope[n - 2], scope[n - 1]];
  }

  lemma {:induction false} JoinNotSlashEnded(parts: seq<string>)
    requires |parts| >= 1 && CleanParts(parts)
    ensures Join(parts) != "" && Join(parts)[|Join(parts)| - 1] != '/'
  {
    assert CleanPart(parts[0]);
    if |parts| == 1 {
      assert parts[0][|parts[0]| - 1] in parts[0];
    } else {
      assert forall i | 0 <= i < |parts[1..]| :: parts[1..][i] == parts[i + 1];
      JoinNotSlashEnded(parts[1..]);
    }
  }

  // ---------------------------------------------------------------- partial order

  /** `_scope_contains` is reflexive and transitive on all strings. */
  lemma ContainsPreorder(a: string, b: string, c: string)
    ensures Contains(a, a)
    ensures Contains(a, b) && Contains(b, c) ==> Contains(a, c)
  {
    if Contains(a, b) && Contains(b, c) && IsTree(a) && IsTree(b) {
      if StartsWith(Root(c), Root(b) + "/") {
        assert Root(c)[..|Root(b)|] == Root(b);
        if StartsWith(Root(b), Root(a) + "/") {
          assert Root(c)[..|Root(a)| + 1] == Root(b)[..|Root(a)| + 1];
        }
      }
    }
  }

  /** On normalised scopes it is a partial order. */
  lemma ContainsAntisymmetric(a: string, b: string)
    requires ValidScope(a) && ValidScope(b)
    requires Contains(a, b) && Contains(b, a)
    ensures a == b
  {
    if IsTree(a) && IsTree(b) {
      var da := TreeShape(a);
      var db := TreeShape(b);
    }
  }

  // ---------------------------------------------------------------- soundness for path checks

  lemma {:induction false} FnMatchLiteral(path: string, literal: string, pattern: string)
    requires !Wild(literal)
    ensures FnMatch(path, literal + pattern) <==>
            StartsWith(path, literal) && FnMatch(path[|literal|..], pattern)
  {
    var whole := literal + pattern;
    if literal == "" {
      assert whole == pattern && path[0..] == path;
    } else {
      assert literal[0] in literal;
      assert whole[0] == literal[0] && whole[1..] == literal[1..] + pattern;
      assert |literal| <= |path| ==> path[0] == path[..|literal|][0];
      if path != "" && path[0] == literal[0] {
        FnMatchLiteral(path[1..], literal[1..], pattern);
        assert forall i | i in literal[1..] :: i in literal;
        if |literal| <= |path| {
          assert path[1..][|literal| - 1..] == path[|literal|..];
          assert path[..|literal|] == [path[0]] + path[1..][..|literal| - 1];
          assert literal == [literal[0]] + literal[1..];
        }
      }
    }
  }

  lemma {:induction false} StarsMatchAll(path: string)
    ensures FnMatch(path, "**")
    decreases |path|
  {
    assert "**"[1..] == "*" && "*"[1..] == "";
    StarMatches(path);
  }

  lemma {:induction false} StarMatches(path: string)
    ensures FnMatch(path, "*")
  {
    assert "*"[1..] == "";
    if path != "" {
      StarMatches(path[1..]);
    }
  }

  /** The file-name pattern of a normalised tree admits exactly the paths below its root. */
  lemma TreeAllows(scope: string, path: string)
    requires ValidScope(scope) && IsTree(scope)
    ensures Allows(scope, path) <==> StartsWith(path, Root(scope) + "/")
  {
    var dir := TreeShape(scope);
    var literal := Root(scope) + "/";
    assert !Wild(literal);
    assert scope == literal + "**";
    FnMatchLiteral(path, literal, "**");
    if StartsWith(path, literal) {
      StarsMatchAll(path[|literal|..]);
    }
  }

  /** A path a contained scope allows is allowed by the container, unless it is the container's root. */
  lemma ContainsSound(container: string, scope: string, path: string)
    requires ValidScope(container) && ValidScope(scope)
    requires Contains(container, scope) && Allows(scope, path)
    ensures Allows(container, path) || (IsTree(container) && path == Root(container))
  {
    if IsTree(container) {
      TreeAllows(container, path);
      if IsTree(scope) {
        TreeAllows(scope, path);
        BelowBelow(path, Root(scope), Root(container));
      }
    }
  }

  lemma BelowBelow(path: string, inner: string, outer: string)
    requires StartsWith(path, inner + "/") && (inner == outer || StartsWith(inner, outer + "/"))
    ensures StartsWith(path, outer + "/")
  {
    assert path[..|inner|] == inner by {
      assert path[..|inner| + 1][..|inner|] == path[..|inner|];
    }
    if inner != outer {
      assert path[..|outer| + 1] == inner[..|outer| + 1];
    }
  }

  /** The tree of a directory allows the valid path "dir/x" for any plain last part x. */
  lemma TreeMember(scope: string, last: string) returns (path: string)
    requires ValidScope(scope) && IsTree(scope)
    requires CleanPart(last) && !Wild(last) && last != ".." && last != ".git" && last != ".formalspecgen"
    ensures path == Root(scope) + "/" + last && ValidScope(path) && Allows(scope, path)
  {
    var dir := TreeShape(scope);
    path := Root(scope) + "/" + last;
    JoinSnoc(dir, last);
    PlainPathIsValid(dir, last);
    TreeAllows(scope, path);
    assert path[..|Root(scope)| + 1] == Root(scope) + "/";
    hide ValidScope, Allows, Root, IsTree;
  }

  lemma PlainPathIsValid(dir: seq<string>, last: string)
    requires CleanParts(dir) && WildCount(dir) == 0 && ".." !in dir && ".git" !in dir && ".formalspecgen" !in dir
    requires CleanPart(last) && !Wild(last) && last != ".." && last != ".git" && last != ".formalspecgen"
    ensures ValidScope(Join(dir + [last]))
  {
    var parts := dir + [last];
    assert CleanParts(parts);
    PartsOfJoin(parts);
    WildCountSnoc(dir, last);
    hide Wild, Join, Parts, IsAbsolute;
    assert Normalize(Join(parts)) == CheckParts(parts);
  }

  /** Every path of a scope is allowed by another one: what a narrowing ought to mean. */
  ghost predicate Narrows(container: string, scope: string) {
    forall path | ValidScope(path) && Allows(scope, path) :: Allows(container, path)
  }

  /**
   Exactly when `_scope_contains` is right about `_path_allowed`: containment narrows the allowed
   paths except for an exact scope that names the root directory of a containing tree.
   */
  lemma ContainsExact(container: string, scope: string)
    requires ValidScope(container) && ValidScope(scope)
    ensures Narrows(container, scope) <==>
            Contains(container, scope) && !(IsTree(container) && scope == Root(container))
  {
    if Contains(container, scope) && !(IsTree(container) && scope == Root(container)) {
      forall path | ValidScope(path) && Allows(scope, path)
        ensures Allows(container, path)
      {
        ContainsSound(container, scope, path);
        if IsTree(scope) && IsTree(container) {
          TreeAllows(scope, path);
          TreeAllows(container, path);
          assert path != Root(container) by {
            assert |path| > |Root(scope)| >= |Root(container)|;
          }
        }
      }
    } else if IsTree(scope) {
      NotContainedTree(container, scope);
    } else {
      assert Allows(scope, scope);
      if IsTree(container) {
        TreeAllows(container, scope);
      }
    }
  }

  lemma NotContainedTree(container: string, scope: string)
    requires ValidScope(container) && ValidScope(scope) && IsTree(scope)
    requires !Contains(container, scope) || (IsTree(container) && scope == Root(container))
    ensures !Narrows(container, scope)
  {
    var x := TreeMember(scope, "x");
    var y := TreeMember(scope, "y");
    assert x[|x| - 1] == 'x' && y[|y| - 1] == 'y';
    if IsTree(container) {
      var dir := TreeShape(container);
      assert scope[|scope| - 3..][2] == scope[|scope| - 1];
      assert Wild(scope);
      TreeAllows(container, x);
      BelowParent(Root(scope), "x", Root(container));
    }
  }

  lemma BelowParent(parent: string, last: string, root: string)
    requires |last| == 1 && '/' !in last
    ensures StartsWith(parent + "/" + last, root + "/") ==> root == parent || StartsWith(parent, root + "/")
  {
    var path := parent + "/" + last;
    if StartsWith(path, root + "/") {
      assert path[|root|] == path[..|root + "/"|][|root|] == '/';
      assert path[|parent| + 1] == last[0];
      assert root == path[..|root + "/"|][..|root|] == path[..|root|] == parent[..|root|];
      if |root| < |parent| {
        assert parent[..|root| + 1] == path[..|root| + 1];
      }
    }
  }

  /** The corner itself: containment holds, the path check does not. */
  lemma RootCorner()
    ensures Contains("d/**", "d") && !PathAllowed("d", {"d/**"})
  {
    assert "d/**"[1..] == "/**" && "d/**"[..1] == "d";
    assert "d"[1..] == "";
  }
}
