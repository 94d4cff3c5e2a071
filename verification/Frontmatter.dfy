/** Lines, trimming, and the hand-written frontmatter splitter with the printer it undoes. */
module Frontmatter {
  // ----- str::lines and join("\n") -----

  /** Position of the first line feed at `at` or behind it, or the length. */
  function LineEndFrom(s: string, at: nat): (e: nat)
    requires at <= |s|
    ensures at <= e <= |s| && forall i | at <= i < e :: s[i] != '\n'
    ensures e < |s| ==> s[e] == '\n'
    decreases |s| - at
  {
    if at == |s| || s[at] == '\n' then at else LineEndFrom(s, at + 1)
  }

  function LineEnd(s: string): (e: nat)
    ensures e <= |s| && (forall i | 0 <= i < e :: s[i] != '\n') && (e < |s| ==> s[e] == '\n')
  {
    LineEndFrom(s, 0)
  }

  /** A line feed takes the carriage return in front of it away; the last line keeps its own. */
  function StripCr(line: string): string {
    if line != [] && line[|line| - 1] == '\r' then line[..|line| - 1] else line
  }

  /** `str::lines`: a final line feed starts no further line. */
  function Lines(s: string): (r: seq<string>)
    ensures s != [] ==> r != []
    decreases |s|
  {
    if s == [] then []
    else
      var e := LineEnd(s);
      if e == |s| then [s] else [StripCr(s[..e])] + Lines(s[e + 1..])
  }

  function Join(lines: seq<string>): string {
    if lines == [] then ""
    else if |lines| == 1 then lines[0]
    else lines[0] + "\n" + Join(lines[1..])
  }

  lemma LineEndOfConcat(a: string, b: string)
    requires LineEnd(a) < |a|
    ensures LineEnd(a + b) == LineEnd(a)
  {
    LineEndIs(a + b, LineEnd(a));
  }

  lemma LineEndIs(s: string, e: nat)
    requires e < |s| && s[e] == '\n' && forall i | 0 <= i < e :: s[i] != '\n'
    ensures LineEnd(s) == e
  {
  }

  lemma LinesByFirst(s: string)
    requires LineEnd(s) < |s|
    ensures Lines(s) == [StripCr(s[..LineEnd(s)])] + Lines(s[LineEnd(s) + 1..])
  {
  }

  lemma {:induction false} LinesOfConcat(a: string, b: string)
    requires a != [] && a[|a| - 1] == '\n'
    ensures Lines(a + b) == Lines(a) + Lines(b)
    decreases |a|
  {
    LinesByFirst(a);
    FirstOfConcat(a, b);
    var first, rest := StripCr(a[..LineEnd(a)]), a[LineEnd(a) + 1..];
    assert Lines(rest + b) == Lines(rest) + Lines(b) by {
      if rest == [] {
        assert rest + b == b;
      } else {
        LinesOfConcat(rest, b);
      }
    }
    ConsOfConcat(first, Lines(rest), Lines(b));
  }

  lemma ConsOfConcat<T>(x: T, a: seq<T>, b: seq<T>)
    ensures [x] + (a + b) == ([x] + a) + b
  {
  }

  lemma FirstOfConcat(a: string, b: string)
    requires LineEnd(a) < |a|
    ensures Lines(a + b) == [StripCr(a[..LineEnd(a)])] + Lines(a[LineEnd(a) + 1..] + b)
  {
    var e := LineEnd(a);
    LineEndOfConcat(a, b);
    CutsOfConcat(a, b, e);
    LinesByFirst(a + b);
  }

  lemma CutsOfConcat(a: string, b: string, e: nat)
    requires e < |a|
    ensures (a + b)[..e] == a[..e] && (a + b)[e + 1..] == a[e + 1..] + b
  {
  }

  ghost predicate CrLfAt(s: string, i: int) {
    0 <= i < |s| - 1 && s[i] == '\r' && s[i + 1] == '\n'
  }

  ghost predicate HasCrLf(s: string) {
    exists i :: CrLfAt(s, i)
  }

  /** A CR LF of `s` stands at its first line end or behind it. */
  lemma CrLfByLine(s: string)
    requires LineEnd(s) < |s|
    ensures var e := LineEnd(s);
            HasCrLf(s) <==> StripCr(s[..e]) != s[..e] || HasCrLf(s[e + 1..])
  {
    var e: int := LineEnd(s);
    var rest := s[e + 1..];
    assert StripCr(s[..e]) != s[..e] <==> CrLfAt(s, e - 1);
    if i :| CrLfAt(s, i) && i != e - 1 {
      assert CrLfAt(rest, i - e - 1);
    }
    if i :| CrLfAt(rest, i) {
      assert CrLfAt(s, e + 1 + i);
    }
  }

  /** Text that ends inside a line comes back from its lines exactly when it has no CR LF. */
  lemma {:induction false} JoinOfLines(s: string)
    requires s == [] || s[|s| - 1] != '\n'
    ensures |Join(Lines(s))| <= |s|
    ensures Join(Lines(s)) == s <==> !HasCrLf(s)
    decreases |s|
  {
    var e := LineEnd(s);
    if e == |s| {
      assert !HasCrLf(s);
    } else {
      var line, rest := s[..e], s[e + 1..];
      assert s == line + "\n" + rest;
      JoinOfLines(rest);
      CrLfByLine(s);
      var again := Join(Lines(rest));
      assert Join(Lines(s)) == StripCr(line) + "\n" + again;
      if StripCr(line) == line && line + "\n" + again == s {
        assert again == (line + "\n" + again)[e + 1..];
      }
    }
  }

  lemma JoinOfCons(line: string, lines: seq<string>)
    ensures Join([line] + lines) == if lines == [] then line else line + "\n" + Join(lines)
  {
    assert ([line] + lines)[1..] == lines;
  }

  /** A text of whole lines without CR comes back without its last line feed. */
  lemma {:induction false} JoinOfWholeLines(s: string)
    requires s != [] && s[|s| - 1] == '\n' && '\r' !in s
    ensures Join(Lines(s)) == s[..|s| - 1]
    decreases |s|
  {
    var e := LineEnd(s);
    var line, rest := s[..e], s[e + 1..];
    KeepsLine(s, e);
    LinesByFirst(s);
    JoinOfCons(line, Lines(rest));
    if rest == [] {
      assert Lines(rest) == [] && e == |s| - 1;
    } else {
      RestKeeps(s, e + 1);
      JoinOfWholeLines(rest);
      FrontOf(s, e);
    }
  }

  lemma FrontOf(s: string, e: nat)
    requires e + 1 < |s| && s[e] == '\n'
    ensures s[..|s| - 1] == s[..e] + "\n" + s[e + 1..][..|s[e + 1..]| - 1]
  {
  }

  lemma RestKeeps(s: string, n: nat)
    requires n < |s| && '\r' !in s
    ensures s[n..][|s[n..]| - 1] == s[|s| - 1] && '\r' !in s[n..]
  {
  }

  lemma KeepsLine(s: string, e: nat)
    requires '\r' !in s && e <= |s|
    ensures StripCr(s[..e]) == s[..e]
  {
    assert e > 0 ==> s[..e][e - 1] == s[e - 1] && s[e - 1] in s;
  }

  // ----- str::trim -----

  /** The Unicode property White_Space. */
  predicate IsWhite(c: char) {
    || '\t' <= c <= '\r' || c == ' ' || c == '\U{85}' || c == '\U{A0}' || c == '\U{1680}'
    || '\U{2000}' <= c <= '\U{200A}' || c == '\U{2028}' || c == '\U{2029}' || c == '\U{202F}'
    || c == '\U{205F}' || c == '\U{3000}'
  }

  function TrimStart(s: string): string {
    if s != [] && IsWhite(s[0]) then TrimStart(s[1..]) else s
  }

  function TrimEnd(s: string): string {
    if s != [] && IsWhite(s[|s| - 1]) then TrimEnd(s[..|s| - 1]) else s
  }

  /** A suffix behind white space. */
  lemma {:induction false} TrimStartFacts(s: string)
    ensures var r := TrimStart(s);
            && |r| <= |s| && s[|s| - |r|..] == r
            && (forall i | 0 <= i < |s| - |r| :: IsWhite(s[i]))
            && (r != [] ==> !IsWhite(r[0]))
  {
    if s != [] && IsWhite(s[0]) {
      TrimStartFacts(s[1..]);
      var r := TrimStart(s);
      assert s[1..][|s| - 1 - |r|..] == s[|s| - |r|..];
      forall i | 0 <= i < |s| - |r| ensures IsWhite(s[i]) {
        if i > 0 { assert s[i] == s[1..][i - 1]; }
      }
    }
  }

  /** A prefix in front of white space. */
  lemma {:induction false} TrimEndFacts(s: string)
    ensures var r := TrimEnd(s);
            && r <= s
            && (forall i | |r| <= i < |s| :: IsWhite(s[i]))
            && (r != [] ==> !IsWhite(r[|r| - 1]))
  {
    if s != [] && IsWhite(s[|s| - 1]) {
      TrimEndFacts(s[..|s| - 1]);
    }
  }

  function Trim(s: string): string {
    TrimEnd(TrimStart(s))
  }

  ghost predicate IsTrimmed(s: string) {
    s == [] || (!IsWhite(s[0]) && !IsWhite(s[|s| - 1]))
  }

  lemma TrimStartIdentity(s: string)
    ensures TrimStart(s) == s <==> s == [] || !IsWhite(s[0])
  {
    TrimStartFacts(s);
  }

  lemma TrimEndIdentity(s: string)
    ensures TrimEnd(s) == s <==> s == [] || !IsWhite(s[|s| - 1])
  {
    TrimEndFacts(s);
  }

  /** A trimmed text is exactly one that trimming leaves as it is. */
  lemma TrimIdentity(s: string)
    ensures Trim(s) == s <==> IsTrimmed(s)
  {
    TrimStartIdentity(s);
    TrimEndIdentity(s);
    TrimStartFacts(s);
    TrimEndFacts(TrimStart(s));
    assert Trim(s) == s ==> |TrimStart(s)| == |s|;
  }

  lemma TrimTrims(s: string)
    ensures IsTrimmed(Trim(s)) && Trim(Trim(s)) == Trim(s)
  {
    var t := TrimStart(s);
    var r := Trim(s);
    TrimStartFacts(s);
    TrimEndFacts(t);
    assert r != [] ==> r[0] == t[0];
    TrimIdentity(r);
  }

  /** The 25 characters of the Unicode property White_Space. */
  const WHITE_SPACE :=
    "\t\n\U{0B}\U{0C}\r \U{85}\U{A0}\U{1680}\U{2000}\U{2001}\U{2002}\U{2003}\U{2004}\U{2005}\U{2006}\U{2007}"
    + "\U{2008}\U{2009}\U{200A}\U{2028}\U{2029}\U{202F}\U{205F}\U{3000}"

  /** `s[i..j]` is `s` without the white space in front of it and behind it. */
  ghost predicate IsMiddle(s: string, i: nat, j: nat) {
    && i <= j <= |s|
    && (forall k | 0 <= k < i :: s[k] in WHITE_SPACE) && (forall k | j <= k < |s| :: s[k] in WHITE_SPACE)
    && (i < j ==> s[i] !in WHITE_SPACE && s[j - 1] !in WHITE_SPACE)
  }

  lemma WhiteSpaceIsListed(c: char)
    ensures IsWhite(c) <==> c in WHITE_SPACE
  {
  }

  /** The same, said with the predicate. */
  ghost predicate IsCut(s: string, i: nat, j: nat) {
    && i <= j <= |s|
    && (forall k | 0 <= k < i :: IsWhite(s[k])) && (forall k | j <= k < |s| :: IsWhite(s[k]))
    && (i < j ==> !IsWhite(s[i]) && !IsWhite(s[j - 1]))
  }

  lemma MiddleIsCut(s: string, i: nat, j: nat)
    ensures IsMiddle(s, i, j) <==> IsCut(s, i, j)
  {
    forall k | 0 <= k < |s| ensures IsWhite(s[k]) <==> s[k] in WHITE_SPACE {
      WhiteSpaceIsListed(s[k]);
    }
  }

  lemma TrimCuts(s: string) returns (i: nat, j: nat)
    ensures IsCut(s, i, j) && Trim(s) == s[i..j]
  {
    var t := TrimStart(s);
    TrimStartFacts(s);
    TrimEndFacts(t);
    i := |s| - |t|;
    j := i + |Trim(s)|;
    assert forall k | 0 <= k < |t| :: t[k] == s[i..][k];
  }

  lemma CutIsUnique(s: string, i: nat, j: nat, a: nat, b: nat)
    requires IsCut(s, i, j) && IsCut(s, a, b)
    ensures s[i..j] == s[a..b]
  {
    if i < j {
      assert a <= i && j <= b;
    }
    if a < b {
      assert i <= a && b <= j;
    }
  }

  /** What trimming leaves is the middle of the text, which is the same however its ends are chosen. */
  lemma TrimIsMiddle(s: string)
    ensures exists i: nat, j: nat :: IsMiddle(s, i, j) && Trim(s) == s[i..j]
    ensures forall i: nat, j: nat | IsMiddle(s, i, j) :: Trim(s) == s[i..j]
  {
    var i, j := TrimCuts(s);
    MiddleIsCut(s, i, j);
    forall a: nat, b: nat | IsMiddle(s, a, b) ensures Trim(s) == s[a..b] {
      MiddleIsCut(s, a, b);
      CutIsUnique(s, i, j, a, b);
    }
  }

  /** Trimming cuts a text out of its middle, so it brings no CR LF in. */
  lemma TrimKeepsCrLfFree(s: string)
    requires !HasCrLf(s)
    ensures !HasCrLf(Trim(s))
  {
    var t := TrimStart(s);
    var r := TrimEnd(t);
    var k := |s| - |t|;
    TrimStartFacts(s);
    TrimEndFacts(t);
    assert forall i | 0 <= i < |t| :: t[i] == s[k..][i];
    forall i ensures !CrLfAt(r, i) {
      assert !CrLfAt(s, k + i);
    }
  }

  // ----- the splitter -----

  const FENCE := "---"

  datatype Split =
    | Parts(front: string, body: string)
    | NoOpening
    | NoClosing

  /** Index of the first fence at or after `start`, or the number of lines. */
  function NextFence(lines: seq<string>, start: nat): (i: nat)
    requires start <= |lines|
    ensures start <= i <= |lines| && forall k | start <= k < i :: lines[k] != FENCE
    ensures i < |lines| ==> lines[i] == FENCE
    decreases |lines| - start
  {
    if start == |lines| || lines[start] == FENCE then start else NextFence(lines, start + 1)
  }

  /** What the splitter returns: the text between the first two fences, and the text behind. */
  function SplitOf(content: string): Split {
    SplitLines(Lines(content))
  }

  function SplitLines(lines: seq<string>): Split {
    if lines == [] || lines[0] != FENCE then NoOpening
    else
      var close := NextFence(lines, 1);
      if close == |lines| then NoClosing
      else Parts(Join(lines[1..close]), Join(lines[close + 1..]))
  }

  method SplitFrontmatter(content: string) returns (r: Split)
    ensures r == SplitOf(content)
  {
    var lines := Lines(content);
    if lines == [] || lines[0] != FENCE {
      return NoOpening;
    }
    var frontmatter: seq<string> := [];
    var closed := false;
    var next := 1;
    while next < |lines| && !closed
      invariant 1 <= next <= |lines|
      invariant !closed ==> frontmatter == lines[1..next] && NextFence(lines, next) == NextFence(lines, 1)
      invariant closed ==> next == NextFence(lines, 1) + 1 && frontmatter == lines[1..next - 1]
      decreases |lines| - next
    {
      if lines[next] == FENCE {
        closed := true;
      } else {
        frontmatter := frontmatter + [lines[next]];
      }
      next := next + 1;
    }
    if !closed {
      return NoClosing;
    }
    r := Parts(Join(frontmatter), Join(lines[next..]));
  }

  /** The first line opens a block that the line at `close` is the first to close. */
  ghost predicate IsBlockUpTo(lines: seq<string>, close: nat) {
    1 <= close < |lines| && lines[0] == "---" && lines[close] == "---" && "---" !in lines[1..close]
  }

  lemma NextFenceIs(lines: seq<string>, start: nat, i: nat)
    requires start <= i < |lines| && lines[i] == FENCE && forall k | start <= k < i :: lines[k] != FENCE
    ensures NextFence(lines, start) == i
  {
  }

  lemma FirstCloses(lines: seq<string>, close: nat)
    requires IsBlockUpTo(lines, close)
    ensures NextFence(lines, 1) == close
  {
    forall k | 1 <= k < close ensures lines[k] != FENCE {
      assert lines[1..close][k - 1] == lines[k];
    }
    NextFenceIs(lines, 1, close);
  }

  lemma NothingCloses(lines: seq<string>)
    requires lines != []
    ensures NextFence(lines, 1) == |lines| <==> "---" !in lines[1..]
  {
    var i := NextFence(lines, 1);
    forall k | 1 <= k < |lines| ensures lines[1..][k - 1] == lines[k] {
    }
    if i < |lines| {
      assert lines[1..][i - 1] == FENCE;
    }
  }

  /** Which lines a split takes, and when it fails for want of a fence. */
  lemma SplitMeaning(content: string)
    ensures var lines := Lines(content);
            && (SplitOf(content) == NoOpening <==> lines == [] || lines[0] != "---")
            && (SplitOf(content) == NoClosing <==> lines != [] && lines[0] == "---" && "---" !in lines[1..])
            && forall close: nat | IsBlockUpTo(lines, close) ::
                 SplitOf(content) == Parts(Join(lines[1..close]), Join(lines[close + 1..]))
  {
    var lines := Lines(content);
    if lines != [] && lines[0] == FENCE {
      NothingCloses(lines);
      forall close: nat | IsBlockUpTo(lines, close) ensures NextFence(lines, 1) == close {
        FirstCloses(lines, close);
      }
    }
  }

  // ----- the printer -----

  /** What the YAML printer guarantees of a frontmatter block. */
  ghost predicate IsBlock(yaml: string) {
    yaml != [] && yaml[|yaml| - 1] == '\n' && '\r' !in yaml && FENCE !in Lines(yaml)
  }

  /** `---\n{yaml}---\n{body.trim()}`. */
  function Print(yaml: string, body: string): string {
    "---\n" + yaml + "---\n" + Trim(body)
  }

  /** The body that a reader of the printed file gets. */
  function ReadBack(body: string): string {
    Trim(Join(Lines(Trim(body))))
  }

  lemma LinesOfFence()
    ensures Lines("---\n") == [FENCE]
  {
    var s := "---\n";
    assert s[0] != '\n' && s[1] != '\n' && s[2] != '\n' && s[3] == '\n';
    LineEndIs(s, 3);
    assert s[..3] == FENCE && s[4..] == [];
  }

  lemma LinesOfPrinted(yaml: string, body: string)
    requires IsBlock(yaml)
    ensures Lines(Print(yaml, body)) == [FENCE] + Lines(yaml) + [FENCE] + Lines(Trim(body))
  {
    var fence, text := "---\n", Trim(body);
    LinesOfFence();
    assert Print(yaml, body) == fence + (yaml + (fence + text));
    FenceAndText(fence, yaml, text);
  }

  lemma FenceAndText(fence: string, yaml: string, text: string)
    requires IsBlock(yaml) && fence != [] && fence[|fence| - 1] == '\n' && Lines(fence) == [FENCE]
    ensures Lines(fence + (yaml + (fence + text))) == [FENCE] + Lines(yaml) + [FENCE] + Lines(text)
  {
    LinesOfConcat(fence, yaml + (fence + text));
    LinesOfConcat(yaml, fence + text);
    LinesOfConcat(fence, text);
  }

  /** The splitter finds the printed block and the lines of the body, fences in the body or not. */
  lemma SplitOfPrinted(yaml: string, body: string)
    requires IsBlock(yaml)
    ensures SplitOf(Print(yaml, body)) == Parts(yaml[..|yaml| - 1], Join(Lines(Trim(body))))
  {
    var front, rest := Lines(yaml), Lines(Trim(body));
    LinesOfPrinted(yaml, body);
    JoinOfWholeLines(yaml);
    SplitOfLines(front, rest);
  }

  lemma SplitOfLines(front: seq<string>, rest: seq<string>)
    requires FENCE !in front
    ensures SplitLines([FENCE] + front + [FENCE] + rest) == Parts(Join(front), Join(rest))
  {
    var lines := [FENCE] + front + [FENCE] + rest;
    assert forall k | 1 <= k < 1 + |front| :: lines[k] == front[k - 1];
    NextFenceIs(lines, 1, 1 + |front|);
    assert lines[1..1 + |front|] == front && lines[1 + |front| + 1..] == rest;
  }

  /** The body comes back trimmed, and a second print gives the same file, exactly without CR LF. */
  lemma BodyRoundTrip(body: string)
    ensures ReadBack(body) == Trim(body) <==> !HasCrLf(Trim(body))
    ensures ReadBack(body) == Trim(ReadBack(body))
    ensures !HasCrLf(body) ==> ReadBack(body) == Trim(body)
  {
    var t := Trim(body);
    var again := Join(Lines(t));
    TrimTrims(body);
    assert t != [] ==> t[|t| - 1] != '\n';
    JoinOfLines(t);
    TrimTrims(again);
    if !HasCrLf(body) {
      TrimKeepsCrLfFree(body);
    }
    TrimShortens(again);
    if HasCrLf(t) {
      assert again != t;
      ShorterLines(t);
    }
  }

  // ----- what a reader gets, exactly -----

  /** The text without the carriage returns that stand right in front of a line feed. */
  function WithoutCrs(s: string): string {
    if |s| < 2 then s
    else if s[0] == '\r' && s[1] == '\n' then WithoutCrs(s[1..])
    else [s[0]] + WithoutCrs(s[1..])
  }

  lemma WithoutCrsByFirst(c: char, tail: string)
    ensures WithoutCrs([c] + tail)
         == if c == '\r' && tail != [] && tail[0] == '\n' then WithoutCrs(tail) else [c] + WithoutCrs(tail)
  {
    assert ([c] + tail)[1..] == tail;
  }

  lemma StripCrByFirst(line: string)
    requires line != []
    ensures StripCr(line) == if line == "\r" then "" else [line[0]] + StripCr(line[1..])
  {
  }

  lemma {:induction false} WithoutCrsOfLine(line: string, rest: string)
    requires '\n' !in line
    ensures WithoutCrs(line + "\n" + rest) == StripCr(line) + "\n" + WithoutCrs(rest)
  {
    if line == "" {
      WithoutCrsByFirst('\n', rest);
    } else {
      var more := line[1..] + "\n" + rest;
      assert line + "\n" + rest == [line[0]] + more;
      assert more[0] == if |line| > 1 then line[1] else '\n';
      WithoutCrsByFirst(line[0], more);
      StripCrByFirst(line);
      WithoutCrsOfLine(line[1..], rest);
    }
  }

  lemma {:induction false} WithoutCrsOfLast(line: string)
    requires '\n' !in line
    ensures WithoutCrs(line) == line
  {
    if |line| >= 2 {
      WithoutCrsOfLast(line[1..]);
      assert line[1] in line;
    }
  }

  lemma {:induction false} JoinOfLinesIs(s: string)
    requires s == [] || s[|s| - 1] != '\n'
    ensures Join(Lines(s)) == WithoutCrs(s)
    decreases |s|
  {
    var e := LineEnd(s);
    if e == |s| {
      WithoutCrsOfLast(s);
    } else {
      var line, rest := s[..e], s[e + 1..];
      assert s == line + "\n" + rest;
      JoinOfLinesIs(rest);
      LinesByFirst(s);
      JoinOfCons(StripCr(line), Lines(rest));
      WithoutCrsOfLine(line, rest);
    }
  }

  /** The ends of the text stay, and so does all of it exactly without CR LF. */
  lemma {:induction false} WithoutCrsFacts(s: string)
    ensures s != [] ==> WithoutCrs(s) != [] && WithoutCrs(s)[|WithoutCrs(s)| - 1] == s[|s| - 1]
    ensures s != [] && s[0] != '\r' ==> WithoutCrs(s) != [] && WithoutCrs(s)[0] == s[0]
  {
    if |s| >= 2 {
      WithoutCrsFacts(s[1..]);
    }
  }

  /**
   A reader of the printed file gets the middle of the body, without the carriage returns in it
   that stand in front of a line feed.
   */
  lemma ReadBackIs(body: string)
    ensures ReadBack(body) == WithoutCrs(Trim(body))
  {
    var t := Trim(body);
    TrimTrims(body);
    assert t != [] ==> t[|t| - 1] != '\n' && t[0] != '\r';
    JoinOfLinesIs(t);
    WithoutCrsFacts(t);
    TrimIdentity(WithoutCrs(t));
  }

  /** `text` is what comes back of a text that was given to be stored. */
  ghost predicate ComesBackAs(given: string, text: string) {
    exists i: nat, j: nat ::
      IsMiddle(given, i, j) && text == if HasCrLf(given[i..j]) then WithoutCrs(given[i..j]) else given[i..j]
  }

  lemma ReadBackIff(given: string, text: string)
    ensures ComesBackAs(given, text) <==> text == ReadBack(given)
  {
    TrimIsMiddle(given);
    ReadBackIs(given);
    BodyRoundTrip(given);
    var i: nat, j: nat :| IsMiddle(given, i, j) && Trim(given) == given[i..j];
    assert forall a: nat, b: nat | IsMiddle(given, a, b) :: given[a..b] == Trim(given);
  }

  lemma TrimShortens(s: string)
    ensures |Trim(s)| <= |s|
  {
    TrimStartFacts(s);
    TrimEndFacts(TrimStart(s));
  }

  /** Dropping carriage returns makes the text shorter. */
  lemma {:induction false} ShorterLines(s: string)
    requires s == [] || s[|s| - 1] != '\n'
    ensures HasCrLf(s) ==> |Join(Lines(s))| < |s|
    decreases |s|
  {
    var e := LineEnd(s);
    if e == |s| {
      assert !HasCrLf(s);
    } else {
      var line, rest := s[..e], s[e + 1..];
      JoinOfLines(rest);
      ShorterLines(rest);
      CrLfByLine(s);
      assert Join(Lines(s)) == StripCr(line) + "\n" + Join(Lines(rest));
    }
  }
}
