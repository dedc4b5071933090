/**
 The single-pass method scanner (pipeline/bisimulation.py:9-25) against the full regular expression
 that it replaces.

 Regular expressions have the meaning of a backtracking engine: the results of matching at one
 position form a list in the order in which the engine tries them, and the first one is the match.
 */
module MethodScanner {
  import opened Common

  datatype Regex =
    | One(chars: char -> bool)            // one character of a class
    | Boundary(word: char -> bool)        // \b
    | Then(first: Regex, second: Regex)
    | Maybe(body: Regex)                  // greedy ?
    | Many(chars: char -> bool)           // greedy * of a class
    | Group(body: Regex)                  // a capturing group

  /** One way to match: where it ends and what its groups captured. */
  datatype Found = Found(end: nat, groups: seq<string>)

  predicate AtBoundary(word: char -> bool, text: string, i: nat)
    requires i <= |text|
  {
    (i > 0 && word(text[i - 1])) != (i < |text| && word(text[i]))
  }

  /** Every match consumes at least one character. */
  predicate NeverEmpty(r: Regex) {
    match r
    case One(_) => true
    case Then(a, b) => NeverEmpty(a) || NeverEmpty(b)
    case Group(b) => NeverEmpty(b)
    case _ => false
  }

  /** The number of groups; an optional part may hold none, so that every match sets all of them. */
  function GroupCount(r: Regex): nat {
    match r
    case Then(a, b) => GroupCount(a) + GroupCount(b)
    case Group(b) => 1 + GroupCount(b)
    case _ => 0
  }

  predicate AllGroupsSet(r: Regex) {
    match r
    case Then(a, b) => AllGroupsSet(a) && AllGroupsSet(b)
    case Group(b) => AllGroupsSet(b)
    case Maybe(b) => AllGroupsSet(b) && GroupCount(b) == 0
    case _ => true
  }

  predicate InText(fs: seq<Found>, text: string, from: nat) {
    forall k | 0 <= k < |fs| :: from <= fs[k].end <= |text|
  }

  predicate Consumes(fs: seq<Found>, from: nat) {
    forall k | 0 <= k < |fs| :: from < fs[k].end
  }

  predicate HaveGroups(fs: seq<Found>, n: nat) {
    forall k | 0 <= k < |fs| :: |fs[k].groups| == n
  }

  function Captured(fs: seq<Found>, text: string, i: nat): (captured: seq<Found>)
    requires InText(fs, text, i)
    ensures |captured| == |fs|
    ensures forall k | 0 <= k < |fs| :: captured[k] == Found(fs[k].end, [text[i..fs[k].end]] + fs[k].groups)
  {
    if fs == [] then [] else [Found(fs[0].end, [text[i..fs[0].end]] + fs[0].groups)] + Captured(fs[1..], text, i)
  }

  function Prefixed(groups: seq<string>, fs: seq<Found>): (prefixed: seq<Found>)
    ensures |prefixed| == |fs|
    ensures forall k | 0 <= k < |fs| :: prefixed[k] == Found(fs[k].end, groups + fs[k].groups)
  {
    if fs == [] then [] else [Found(fs[0].end, groups + fs[0].groups)] + Prefixed(groups, fs[1..])
  }

  /** All ways to match at `i`, in the order in which the engine tries them. */
  function Results(r: Regex, text: string, i: nat): (found: seq<Found>)
    requires i <= |text|
    ensures InText(found, text, i)
    ensures NeverEmpty(r) ==> Consumes(found, i)
    ensures AllGroupsSet(r) ==> HaveGroups(found, GroupCount(r))
    decreases r, 0, |text| - i
  {
    match r
    case One(chars) => if i < |text| && chars(text[i]) then [Found(i + 1, [])] else []
    case Boundary(word) => if AtBoundary(word, text, i) then [Found(i, [])] else []
    case Then(a, b) => Chain(Results(a, text, i), b, text, i)
    case Maybe(b) => Results(b, text, i) + [Found(i, [])]
    case Many(chars) => (if i < |text| && chars(text[i]) then Results(r, text, i + 1) else []) + [Found(i, [])]
    case Group(b) => Captured(Results(b, text, i), text, i)
  }

  /** Continue every way to match the first part with every way to match the second. */
  function Chain(fs: seq<Found>, b: Regex, text: string, from: nat): (found: seq<Found>)
    requires InText(fs, text, from)
    ensures InText(found, text, from)
    ensures NeverEmpty(b) || Consumes(fs, from) ==> Consumes(found, from)
    ensures fs == [] ==> found == []
    ensures fs != [] && AllGroupsSet(b) && HaveGroups(fs, |fs[0].groups|) ==>
        HaveGroups(found, |fs[0].groups| + GroupCount(b))
    decreases b, 1, |fs|
  {
    if fs == [] then []
    else Prefixed(fs[0].groups, Results(b, text, fs[0].end)) + Chain(fs[1..], b, text, from)
  }

  // ---------------------------------------------------------------- search

  datatype Match = Match(start: nat, found: Found)

  /** The leftmost match at or after `from`. */
  function Search(r: Regex, text: string, from: nat): (m: Option<Match>)
    requires from <= |text|
    ensures m.Some? ==>
              && from <= m.value.start <= |text| && Results(r, text, m.value.start) != []
              && m.value.found == Results(r, text, m.value.start)[0]
              && forall k | from <= k < m.value.start :: Results(r, text, k) == []
    ensures m.None? ==> forall k | from <= k <= |text| :: Results(r, text, k) == []
    decreases |text| - from
  {
    if Results(r, text, from) != [] then Some(Match(from, Results(r, text, from)[0]))
    else if from == |text| then None
    else Search(r, text, from + 1)
  }

  /** `finditer`: the leftmost matches that do not overlap, each search starting where the last match ended. */
  function FindAll(r: Regex, text: string, from: nat): (ms: seq<Match>)
    requires from <= |text| && NeverEmpty(r)
    ensures AllGroupsSet(r) ==> forall k | 0 <= k < |ms| :: |ms[k].found.groups| == GroupCount(r)
    decreases |text| - from
  {
    match Search(r, text, from)
    case None => []
    case Some(m) => [m] + FindAll(r, text, m.found.end)
  }

  /** `str.find`, with None for -1. */
  function Find(text: string, c: char, from: nat): (at: Option<nat>)
    requires from <= |text|
    ensures at.Some? ==> from <= at.value < |text| && text[at.value] == c && forall k | from <= k < at.value ::
        text[k] != c
    ensures at.None? ==> forall k | from <= k < |text| :: text[k] != c
    decreases |text| - from
  {
    if from == |text| then None else if text[from] == c then Some(from) else Find(text, c, from + 1)
  }

  // ---------------------------------------------------------------- the two expressions

  /** The character classes of the engine; neither `\s` nor `\w` holds a parenthesis. */
  datatype Classes = Classes(space: char -> bool, word: char -> bool)

  predicate Outside(chars: char -> bool) { !chars('(') && !chars(')') }

  predicate Sensible(c: Classes) { Outside(c.space) && Outside(c.word) }

  predicate IdentifierStart(c: char) { 'A' <= c <= 'Z' || 'a' <= c <= 'z' || c == '_' || c == '$' }

  function Literal(s: string): Regex
    requires s != []
  {
    if |s| == 1 then One(c => c == s[0]) else Then(One(c => c == s[0]), Literal(s[1..]))
  }

  function Spaces(c: Classes): Regex { Then(One(c.space), Many(c.space)) }

  /** The modifiers and the return type. */
  function ReturnType(c: Classes): Regex {
    var tail := Many(x => c.word(x) || x == '$' || x == '<' || x == '>' || x == '[' || x == ']');
    Then(Then(Literal("public"), Spaces(c)),
        Then(Maybe(Then(Literal("static"), Spaces(c))), Then(One(IdentifierStart), tail)))
  }

  function Name(c: Classes): Regex {
    Group(Then(One(IdentifierStart), Many(x => c.word(x) || x == '$')))
  }

  /** Everything of a method header before its opening parenthesis. */
  function Header(c: Classes): Regex {
    Then(Then(Boundary(c.word), ReturnType(c)), Then(Spaces(c), Then(Name(c), Many(c.space))))
  }

  predicate IsOpen(c: char) { c == '(' }

  predicate IsClose(c: char) { c == ')' }

  predicate NotClose(c: char) { c != ')' }

  function Prefix(header: Regex): Regex { Then(header, One(IsOpen)) }

  function Tail(): Regex { Then(Group(Many(NotClose)), One(IsClose)) }

  function Full(header: Regex): Regex { Then(Prefix(header), Tail()) }

  /** No class of the expression holds a parenthesis. */
  ghost predicate Avoids(r: Regex) {
    match r
    case One(chars) => Outside(chars)
    case Many(chars) => Outside(chars)
    case Then(a, b) => Avoids(a) && Avoids(b)
    case Maybe(b) => Avoids(b)
    case Group(b) => Avoids(b)
    case Boundary(_) => true
  }

  ghost predicate NoParens(text: string, from: nat, to: nat) {
    forall k | from <= k < to && k < |text| :: text[k] != '(' && text[k] != ')'
  }

  // ---------------------------------------------------------------- where matches end

  lemma ChainStep(fs: seq<Found>, b: Regex, text: string, from: nat)
    requires InText(fs, text, from)
    ensures Chain(fs, b, text, from) ==
            if fs == [] then [] else Prefixed(fs[0].groups, Results(b, text, fs[0].end)) + Chain(fs[1..], b, text, from)
  {
  }

  /** Every chained result continues some result of the first part. */
  lemma {:induction false} ChainOrigin(fs: seq<Found>, b: Regex, text: string, from: nat, k: nat)
    returns (i: nat, j: nat)
    requires InText(fs, text, from) && k < |Chain(fs, b, text, from)|
    ensures i < |fs| && j < |Results(b, text, fs[i].end)|
    ensures Chain(fs, b, text, from)[k].end == Results(b, text, fs[i].end)[j].end
    decreases |fs|
  {
    hide Chain, Results, Prefixed;
    ChainStep(fs, b, text, from);
    var head := Prefixed(fs[0].groups, Results(b, text, fs[0].end));
    if k < |head| {
      i, j := 0, k;
    } else {
      i, j := ChainOrigin(fs[1..], b, text, from, k - |head|);
      i := i + 1;
    }
  }

  lemma {:induction false} AvoidsParens(r: Regex, text: string, i: nat, k: nat)
    requires i <= |text| && Avoids(r) && k < |Results(r, text, i)|
    ensures NoParens(text, i, Results(r, text, i)[k].end)
    decreases r, |text| - i
  {
    match r
    case One(_) =>
    case Boundary(_) =>
    case Group(b) => AvoidsParens(b, text, i, k);
    case Maybe(b) => if k < |Results(b, text, i)| { AvoidsParens(b, text, i, k); }
    case Many(chars) =>
      if i < |text| && chars(text[i]) && k < |Results(r, text, i + 1)| { AvoidsParens(r, text, i + 1, k); }
    case Then(a, b) =>
      var fs := Results(a, text, i);
      var x, y := ChainOrigin(fs, b, text, i, k);
      AvoidsParens(a, text, i, x);
      AvoidsParens(b, text, fs[x].end, y);
  }

  lemma OneAt(chars: char -> bool, text: string, i: nat)
    requires i <= |text|
    ensures Results(One(chars), text, i) == if i < |text| && chars(text[i]) then [Found(i + 1, [])] else []
  {
  }

  lemma ThenAt(a: Regex, b: Regex, text: string, i: nat)
    requires i <= |text|
    ensures Results(Then(a, b), text, i) == Chain(Results(a, text, i), b, text, i)
  {
  }

  lemma OneEnd(chars: char -> bool, text: string, i: nat, k: nat)
    requires i <= |text| && k < |Results(One(chars), text, i)|
    ensures i < |text| && chars(text[i]) && Results(One(chars), text, i)[k].end == i + 1
  {
    OneAt(chars, text, i);
    hide Results;
  }

  /** Every prefix match ends just after the first parenthesis at or after its start, an opening one. */
  lemma PrefixEnd(header: Regex, text: string, i: nat, k: nat)
    requires i <= |text| && Avoids(header) && k < |Results(Prefix(header), text, i)|
    ensures var e := Results(Prefix(header), text, i)[k].end;
            i < e <= |text| && text[e - 1] == '(' && NoParens(text, i, e - 1)
  {
    var fs := Results(header, text, i);
    ThenAt(header, One(IsOpen), text, i);
    hide Results, Chain, HaveGroups, Consumes, NeverEmpty, AllGroupsSet, GroupCount, Avoids, InText;
    var x, y := ChainOrigin(fs, One(IsOpen), text, i, k);
    AvoidsParens(header, text, i, x);
    OneEnd(IsOpen, text, fs[x].end, y);
  }

  /** So all of them, started at one place, end at the same place. */
  lemma SameEnd(header: Regex, text: string, i: nat, k: nat)
    requires i <= |text| && Avoids(header) && k < |Results(Prefix(header), text, i)|
    ensures Results(Prefix(header), text, i)[k].end == Results(Prefix(header), text, i)[0].end
  {
    PrefixEnd(header, text, i, k);
    PrefixEnd(header, text, i, 0);
  }

  /** A closing parenthesis continues a run exactly when one follows it. */
  lemma CloseAfter(groups: seq<string>, text: string, i: nat, from: nat)
    requires from <= i <= |text|
    ensures Chain([Found(i, groups)], One(IsClose), text, from) ==
            if i < |text| && text[i] == ')' then [Found(i + 1, groups)] else []
  {
    var run := [Found(i, groups)];
    OneAt(IsClose, text, i);
    var last := Results(One(IsClose), text, i);
    assert run[1..] == [] && groups + [] == groups;
    hide Results, Chain, Prefixed;
    ChainStep(run, One(IsClose), text, from);
    assert Prefixed(groups, last) == if i < |text| && text[i] == ')' then [Found(i + 1, groups)] else [];
    ChainStep(run[1..], One(IsClose), text, from);
  }

  lemma ManyAt(chars: char -> bool, text: string, i: nat)
    requires i <= |text|
    ensures Results(Many(chars), text, i) ==
            (if i < |text| && chars(text[i]) then Results(Many(chars), text, i + 1) else []) + [Found(i, [])]
  {
  }

  /** What the tail matches at `i` when the run it captures began at `from`. */
  function TailFrom(text: string, i: nat, from: nat): seq<Found>
    requires from <= i <= |text|
  {
    Chain(Captured(Results(Many(NotClose), text, i), text, from), One(IsClose), text, from)
  }

  /** Past any other character the run goes on, and stopping before it leads nowhere. */
  lemma TailGoesOn(text: string, i: nat, from: nat)
    requires from <= i < |text| && text[i] != ')'
    ensures TailFrom(text, i, from) == TailFrom(text, i + 1, from)
  {
    hide Results, Chain, Captured, Prefixed, HaveGroups, Consumes, NeverEmpty, AllGroupsSet, GroupCount;
    var here, rest := [text[from..i]], Results(Many(NotClose), text, i + 1);
    ManyAt(NotClose, text, i);
    CloseAfter(here, text, i, from);
    CapturedSnoc(rest, text, i, from);
    ChainAppend(Captured(rest, text, from), [Found(i, here)], One(IsClose), text, from);
  }

  /** At a closing parenthesis, or at the end of the text, the run stops. */
  lemma TailStops(text: string, i: nat, from: nat)
    requires from <= i <= |text| && (i < |text| ==> text[i] == ')')
    ensures TailFrom(text, i, from) == if i < |text| then [Found(i + 1, [text[from..i]])] else []
  {
    hide Results, Chain, Captured, Prefixed, HaveGroups, Consumes, NeverEmpty, AllGroupsSet, GroupCount;
    var here := [text[from..i]];
    ManyAt(NotClose, text, i);
    CloseAfter(here, text, i, from);
    CapturedSnoc([], text, i, from);
    assert Captured([], text, from) + [Found(i, here)] == [Found(i, here)];
  }

  /** The greedy run stops at the closing parenthesis, and only there can the tail match. */
  lemma {:induction false} TailResults(text: string, i: nat, from: nat)
    requires from <= i <= |text|
    ensures TailFrom(text, i, from) ==
            match Find(text, ')', i)
            case None => []
            case Some(close) => [Found(close + 1, [text[from..close]])]
    decreases |text| - i
  {
    hide TailFrom, Find;
    FindStep(text, ')', i);
    if i < |text| && text[i] != ')' {
      TailGoesOn(text, i, from);
      TailResults(text, i + 1, from);
    } else {
      TailStops(text, i, from);
    }
  }

  lemma CapturedSnoc(fs: seq<Found>, text: string, i: nat, from: nat)
    requires InText(fs, text, from) && from <= i <= |text|
    ensures InText(fs + [Found(i, [])], text, from)
    ensures Captured(fs + [Found(i, [])], text, from) == Captured(fs, text, from) + [Found(i, [text[from..i]])]
  {
    hide Captured;
    var here := [text[from..i]];
    assert here + [] == here;
    assert Captured(fs + [Found(i, [])], text, from)[|fs|] == Found(i, here);
  }

  lemma FindStep(text: string, c: char, i: nat)
    requires i <= |text|
    ensures Find(text, c, i) == if i == |text| then None else if text[i] == c then Some(i) else Find(text, c, i + 1)
  {
  }

  lemma {:induction false} ChainAppend(fs: seq<Found>, gs: seq<Found>, b: Regex, text: string, from: nat)
    requires InText(fs, text, from) && InText(gs, text, from)
    ensures InText(fs + gs, text, from)
    ensures Chain(fs + gs, b, text, from) == Chain(fs, b, text, from) + Chain(gs, b, text, from)
    decreases |fs|
  {
    hide Chain, Results, Prefixed, HaveGroups, Consumes, NeverEmpty, AllGroupsSet, GroupCount;
    ChainStep(fs, b, text, from);
    ChainStep(fs + gs, b, text, from);
    if fs == [] {
      assert fs + gs == gs;
    } else {
      ChainAppend(fs[1..], gs, b, text, from);
      assert (fs + gs)[1..] == fs[1..] + gs;
    }
  }

  lemma TailAt(text: string, i: nat)
    requires i <= |text|
    ensures Results(Tail(), text, i) ==
            match Find(text, ')', i)
            case None => []
            case Some(close) => [Found(close + 1, [text[i..close]])]
  {
    TailResults(text, i, i);
  }

  /** The full match at a position is the prefix match there, extended to the first closing parenthesis. */
  lemma FullAt(header: Regex, text: string, i: nat)
    requires i <= |text| && Avoids(header)
    ensures var ps, full := Results(Prefix(header), text, i), Results(Full(header), text, i);
            if ps == [] || Find(text, ')', ps[0].end).None? then full == []
            else
              var close := Find(text, ')', ps[0].end).value;
              full != [] && full[0] == Found(close + 1, ps[0].groups + [text[ps[0].end..close]])
  {
    hide Prefix, Tail;
    var ps := Results(Prefix(header), text, i);
    if ps != [] {
      TailAt(text, ps[0].end);
      if Find(text, ')', ps[0].end).None? {
        forall k | 0 <= k < |ps| ensures Results(Tail(), text, ps[k].end) == [] { SameEnd(header, text, i, k); }
        NothingChained(ps, Tail(), text, i);
      }
    }
  }

  lemma {:induction false} NothingChained(fs: seq<Found>, b: Regex, text: string, from: nat)
    requires InText(fs, text, from) && forall k | 0 <= k < |fs| :: Results(b, text, fs[k].end) == []
    ensures Chain(fs, b, text, from) == []
    decreases |fs|
  {
    hide Chain, Results;
    ChainStep(fs, b, text, from);
    if fs != [] { NothingChained(fs[1..], b, text, from); }
  }

  // ---------------------------------------------------------------- the scanner

  function Pair(m: Match): (string, string)
    requires |m.found.groups| == 2
  {
    (m.found.groups[0], m.found.groups[1])
  }

  /** The name and parameters of every full match. */
  function Pairs(ms: seq<Match>): (pairs: seq<(string, string)>)
    requires forall k | 0 <= k < |ms| :: |ms[k].found.groups| == 2
    ensures |pairs| == |ms| && forall k | 0 <= k < |ms| :: pairs[k] == Pair(ms[k])
  {
    if ms == [] then [] else [Pair(ms[0])] + Pairs(ms[1..])
  }

  /** An expression without parentheses that always sets its `n` groups. */
  ghost predicate Plain(r: Regex, n: nat) {
    Avoids(r) && AllGroupsSet(r) && GroupCount(r) == n
  }

  ghost predicate IsHeader(header: Regex) { Plain(header, 1) }

  lemma PlainThen(a: Regex, b: Regex, m: nat, n: nat)
    requires Plain(a, m) && Plain(b, n)
    ensures Plain(Then(a, b), m + n)
  {
  }

  lemma {:induction false} PlainLiteral(s: string)
    requires s != [] && forall k | 0 <= k < |s| :: s[k] != '(' && s[k] != ')'
    ensures Plain(Literal(s), 0)
    decreases |s|
  {
    if |s| > 1 { PlainLiteral(s[1..]); }
  }

  lemma PlainSpaces(c: Classes)
    requires Sensible(c)
    ensures Plain(Spaces(c), 0)
  {
    assert Plain(One(c.space), 0) && Plain(Many(c.space), 0);
  }

  lemma PlainReturnType(c: Classes)
    requires Sensible(c)
    ensures Plain(ReturnType(c), 0)
  {
    PlainSpaces(c);
    PlainLiteral("public");
    PlainLiteral("static");
    hide Literal, Spaces;
    var modifier := Then(Literal("static"), Spaces(c));
    PlainThen(Literal("static"), Spaces(c), 0, 0);
    assert Plain(Maybe(modifier), 0);
    var identifier := ReturnType(c).second.second;
    assert Plain(identifier.first, 0) && Plain(identifier.second, 0);
    hide Plain;
    PlainThen(identifier.first, identifier.second, 0, 0);
    PlainThen(Maybe(modifier), identifier, 0, 0);
    PlainThen(Literal("public"), Spaces(c), 0, 0);
    PlainThen(ReturnType(c).first, ReturnType(c).second, 0, 0);
  }

  lemma PlainName(c: Classes)
    requires Sensible(c)
    ensures Plain(Name(c), 1)
  {
    var name := Name(c).body;
    assert Plain(name.first, 0) && Plain(name.second, 0);
    PlainThen(name.first, name.second, 0, 0);
  }

  lemma HeaderIsHeader(c: Classes)
    requires Sensible(c)
    ensures IsHeader(Header(c))
  {
    PlainSpaces(c);
    PlainReturnType(c);
    PlainName(c);
    assert Plain(Boundary(c.word), 0) && Plain(Many(c.space), 0);
    hide Spaces, ReturnType, Name, Plain;
    PlainThen(Name(c), Many(c.space), 1, 0);
    PlainThen(Spaces(c), Then(Name(c), Many(c.space)), 0, 1);
    PlainThen(Boundary(c.word), ReturnType(c), 0, 0);
    PlainThen(Header(c).first, Header(c).second, 0, 1);
  }

  lemma ExpressionGroups(header: Regex)
    requires IsHeader(header)
    ensures NeverEmpty(Prefix(header)) && AllGroupsSet(Prefix(header)) && GroupCount(Prefix(header)) == 1
    ensures NeverEmpty(Full(header)) && AllGroupsSet(Full(header)) && GroupCount(Full(header)) == 2
  {
    assert AllGroupsSet(Tail()) && GroupCount(Tail()) == 1;
    assert AllGroupsSet(Prefix(header)) && GroupCount(Prefix(header)) == 1;
  }

  ghost function FullPairs(header: Regex, text: string, from: nat): seq<(string, string)>
    requires from <= |text| && IsHeader(header)
  {
    ExpressionGroups(header);
    Pairs(FindAll(Full(header), text, from))
  }

  /** A prefix match that begins before the cursor, just after a closing parenthesis, also ends before it. */
  lemma SkippedEndsEarly(header: Regex, text: string, i: nat, cursor: nat)
    requires Avoids(header) && i < cursor <= |text| && text[cursor - 1] == ')' && Results(Prefix(header), text, i) != []
    ensures Results(Prefix(header), text, i)[0].end < cursor
  {
    PrefixEnd(header, text, i, 0);
  }

  /** The leftmost prefix match at or after the cursor, once closed, is the leftmost full match. */
  lemma NextFull(header: Regex, text: string, cursor: nat, m: Match)
    requires IsHeader(header) && cursor <= |text| && Search(Prefix(header), text, cursor) == Some(m)
    ensures var close := Find(text, ')', m.found.end);
            close.Some? ==>
              FullPairs(header, text, cursor) ==
              [(m.found.groups[0], text[m.found.end..close.value])] + FullPairs(header, text, close.value + 1)
  {
    hide Results, Chain, Search, FindAll, Find, Prefix, Full, Avoids;
    ExpressionGroups(header);
    var close := Find(text, ')', m.found.end);
    forall k | cursor <= k <= m.start { FullAt(header, text, k); }
    if close.Some? {
      FindAllStep(Full(header), text, cursor);
      var full := Search(Full(header), text, cursor);
      assert full.Some? && full.value.start == m.start;
      assert full.value.found == Found(close.value + 1, m.found.groups + [text[m.found.end..close.value]]);
      var rest := FindAll(Full(header), text, close.value + 1);
      assert FindAll(Full(header), text, cursor) == [full.value] + rest;
      assert ([full.value] + rest)[1..] == rest;
    }
  }

  /** A prefix match that begins later ends later, so it is unclosed if the earlier one is. */
  lemma LaterUnclosed(header: Regex, text: string, i: nat, k: nat)
    requires Avoids(header) && i <= k <= |text|
    requires Results(Prefix(header), text, i) != [] && Results(Prefix(header), text, k) != []
    requires Find(text, ')', Results(Prefix(header), text, i)[0].end).None?
    ensures Find(text, ')', Results(Prefix(header), text, k)[0].end).None?
  {
    hide Results, Prefix, Find, Avoids;
    PrefixEnd(header, text, i, 0);
    PrefixEnd(header, text, k, 0);
    assert Results(Prefix(header), text, i)[0].end <= Results(Prefix(header), text, k)[0].end;
  }

  /** No full match begins at or after an unclosed prefix match that is the leftmost one. */
  lemma NoneLeft(header: Regex, text: string, cursor: nat)
    requires IsHeader(header) && cursor <= |text|
    requires var m := Search(Prefix(header), text, cursor); m.None? || Find(text, ')', m.value.found.end).None?
    ensures FullPairs(header, text, cursor) == []
  {
    hide Results, Chain, Search, Find, Prefix, Full, Avoids, HaveGroups, Consumes, FindAll;
    ExpressionGroups(header);
    var m := Search(Prefix(header), text, cursor);
    forall k | cursor <= k <= |text| ensures Results(Full(header), text, k) == [] {
      FullAt(header, text, k);
      if Results(Prefix(header), text, k) != [] { LaterUnclosed(header, text, m.value.start, k); }
    }
    FindAllStep(Full(header), text, cursor);
  }

  lemma FindAllStep(r: Regex, text: string, from: nat)
    requires from <= |text| && NeverEmpty(r)
    ensures match Search(r, text, from)
            case None => FindAll(r, text, from) == []
            case Some(m) => FindAll(r, text, from) == [m] + FindAll(r, text, m.found.end)
  {
  }

  /** A search that starts earlier finds the same match, if that match is not before the later start. */
  lemma SearchLater(r: Regex, text: string, from: nat, later: nat)
    requires from <= later <= |text|
    ensures var m := Search(r, text, from); m.None? || later <= m.value.start ==> Search(r, text, later) == m
  {
  }

  /**
   The loop of `public_surface` before its final sort, for any header that avoids parentheses: its list
   is that of the leftmost matches of the full expression that do not overlap.
   */
  method PublicSurface(header: Regex, text: string) returns (result: seq<(string, string)>)
    requires IsHeader(header)
    ensures result == FullPairs(header, text, 0)
  {
    hide Results, Chain, Search, FindAll, FullPairs, Find, Avoids, Prefix;
    ExpressionGroups(header);
    result := [];
    var cursor := 0;
    var matches := FindAll(Prefix(header), text, 0);
    var i := 0;
    ghost var next := 0;
    while i < |matches|
      invariant 0 <= i <= |matches| && 0 <= next <= cursor <= |text|
      invariant cursor == next == 0 || (cursor > 0 && text[cursor - 1] == ')')
      invariant matches[i..] == FindAll(Prefix(header), text, next)
      invariant result + FullPairs(header, text, cursor) == FullPairs(header, text, 0)
    {
      var m := matches[i];
      FindAllStep(Prefix(header), text, next);
      assert matches[i + 1..] == matches[i..][1..];
      SearchLater(Prefix(header), text, next, cursor);
      i, next := i + 1, m.found.end;
      if m.start < cursor {
        SkippedEndsEarly(header, text, m.start, cursor);
        continue;
      }
      var end := Find(text, ')', m.found.end);
      if end.None? {
        NoneLeft(header, text, cursor);
        return;
      }
      NextFull(header, text, cursor, m);
      result := result + [(m.found.groups[0], text[m.found.end..end.value])];
      cursor := end.value + 1;
    }
    FindAllStep(Prefix(header), text, next);
    SearchLater(Prefix(header), text, next, cursor);
    NoneLeft(header, text, cursor);
  }

  /** The shipped expressions, for any classes of spaces and word characters that hold no parenthesis. */
  method ShippedSurface(c: Classes, text: string) returns (result: seq<(string, string)>)
    requires Sensible(c)
    ensures IsHeader(Header(c)) && result == FullPairs(Header(c), text, 0)
  {
    HeaderIsHeader(c);
    result := PublicSurface(Header(c), text);
  }
}
