/** Glob patterns: compilation of a pattern text and the star-backtracking matcher
    (crates/utils/src/glob.rs).

    The meaning of a compiled pattern is `Denotes`. The matcher remembers only the most
    recent star; `Matches` proves that this is enough, and that no pair of positions is
    ever examined twice. */
module Glob {

  datatype PatternChar =
    | WildcardMany(num: nat, matchPos: nat)
    | WildcardSingle(matchPos: nat)
    | Char(c: char, matchPos: nat)

  datatype GlobPattern = GlobPattern(pattern: seq<PatternChar>, toLower: bool)

  /** The Unicode case tables are not part of this model: every result below holds for
      any upper-case test, any lower-case expansion of a character and any lower-casing
      of a whole text. */
  datatype CaseTables = CaseTables(isUpper: char -> bool, lowerChar: char -> string, lowerText: string -> string)

  // ---------------------------------------------------------------- meaning

  /** The declarative meaning: a star is any run of characters, a question mark is any
      one character, a literal is itself. */
  ghost predicate Denotes(p: seq<PatternChar>, s: string)
    decreases |p|
  {
    if p == [] then s == []
    else match p[0]
      case WildcardMany(_, _) => exists k :: 0 <= k <= |s| && Denotes(p[1..], s[k..])
      case WildcardSingle(_) => |s| > 0 && Denotes(p[1..], s[1..])
      case Char(c, _) => |s| > 0 && s[0] == c && Denotes(p[1..], s[1..])
  }

  /** The value as the matcher sees it. */
  function Subject(g: GlobPattern, value: string, t: CaseTables): string {
    if g.toLower then t.lowerText(value) else value
  }

  /** A star either matches nothing or swallows one more character. */
  lemma StarUnroll(p: seq<PatternChar>, s: string)
    requires p != [] && p[0].WildcardMany?
    ensures Denotes(p, s) <==> Denotes(p[1..], s) || (s != [] && Denotes(p, s[1..]))
  {
    if Denotes(p, s) {
      var k :| 0 <= k <= |s| && Denotes(p[1..], s[k..]);
      if k == 0 {
        assert s[0..] == s;
      } else {
        assert s[1..][k - 1..] == s[k..];
      }
    }
    if Denotes(p[1..], s) {
      assert s[0..] == s;
    }
    if s != [] && Denotes(p, s[1..]) {
      var k :| 0 <= k <= |s[1..]| && Denotes(p[1..], s[1..][k..]);
      assert s[1..][k..] == s[k + 1..];
    }
  }

  /** What a star-headed pattern matches, it also matches with any prefix in front. */
  lemma StarAbsorbsPrefix(p: seq<PatternChar>, s: string, k: nat)
    requires p != [] && p[0].WildcardMany? && k <= |s|
    requires Denotes(p, s[k..])
    ensures Denotes(p, s)
  {
    var j :| 0 <= j <= |s[k..]| && Denotes(p[1..], s[k..][j..]);
    assert s[k..][j..] == s[k + j..];
  }

  ghost predicate NoStar(p: seq<PatternChar>) {
    forall i :: 0 <= i < |p| ==> !p[i].WildcardMany?
  }

  /** A star-free prefix of the pattern consumes exactly as many characters as it has
      elements. */
  lemma {:induction false} FixedPrefix(p: seq<PatternChar>, n: nat, s: string)
    requires n <= |p| && NoStar(p[..n])
    requires Denotes(p, s)
    ensures n <= |s| && Denotes(p[n..], s[n..])
  {
    if n == 0 {
      assert p[0..] == p && s[0..] == s;
    } else {
      assert !p[..n][0].WildcardMany?;
      assert p[1..][..n - 1] == p[..n][1..];
      FixedPrefix(p[1..], n - 1, s[1..]);
      assert p[1..][n - 1..] == p[n..] && s[1..][n - 1..] == s[n..];
    }
  }

  /** The exchange step behind remembering one star only. The matcher ran from the star
      at `star` (assigned `from` characters of the value) over a star-free stretch up to
      a later star at `px`. If the earlier star could succeed by swallowing more, the
      later star succeeds from the position already reached. */
  lemma LaterStarSuffices(p: seq<PatternChar>, v: string, star: nat, from: nat, px: nat, nx: nat)
    requires star < px < |p| && p[star].WildcardMany? && p[px].WildcardMany?
    requires from <= nx <= |v| && nx - from == px - star - 1
    requires NoStar(p[star + 1..px])
    requires from + 1 <= |v| && Denotes(p[star..], v[from + 1..])
    ensures Denotes(p[px..], v[nx..])
  {
    var rest := v[from + 1..];
    assert p[star..][0] == p[star] && p[star..][1..] == p[star + 1..];
    var k :| 0 <= k <= |rest| && Denotes(p[star + 1..], rest[k..]);
    var n := px - star - 1;
    assert p[star + 1..][..n] == p[star + 1..px];
    FixedPrefix(p[star + 1..], n, rest[k..]);
    assert p[star + 1..][n..] == p[px..];
    assert rest[k..][n..] == v[nx..][k + 1..];
    StarAbsorbsPrefix(p[px..], v[nx..], k + 1);
  }

  // ---------------------------------------------------------------- the matcher

  /** Position pairs already examined when the matcher stands at (px, nx), given the
      remembered star. A saved value position of zero means that no star was met. */
  ghost predicate Behind(p: seq<PatternChar>, seen: set<(int, int)>, px: int, nx: int, nextPx: int, nextNx: int)
  {
    if nextNx == 0 then
      px == nx && forall c :: c in seen ==> c.0 == c.1 && c.0 < px
    else
      && (forall c :: c in seen && c.0 == nextPx ==> c.1 < nextNx)
      && (forall c :: c in seen && c.0 > nextPx ==>
            && c.1 - c.0 <= nextNx - nextPx - 2
            && (c.1 - c.0 == nextNx - nextPx - 2 && px != nextPx ==> c.0 < px))
      && (forall c, j :: c in seen && nextPx < j <= c.0 && 0 <= j < |p| ==> !p[j].WildcardMany?)
  }

  /** Where the matcher stands relative to the remembered star: either about to retry it
      one character further, or on the diagonal that it started. */
  ghost predicate OnTrack(p: seq<PatternChar>, px: int, nx: int, nextPx: int, nextNx: int)
  {
    if nextNx == 0 then
      nextPx == 0 && px == nx && (forall j :: 0 <= j < px && j < |p| ==> !p[j].WildcardMany?)
    else
      && 0 <= nextPx < |p| && p[nextPx].WildcardMany? && nextPx <= px
      && (px == nextPx ==> nx == nextNx)
      && (px > nextPx ==>
            && nx - (nextNx - 1) == px - nextPx - 1
            && (forall j :: nextPx < j < px && j < |p| ==> !p[j].WildcardMany?))
  }

  /** What is left to decide: the current position, or a retry of the remembered star. */
  ghost predicate Pending(p: seq<PatternChar>, v: string, px: int, nx: int, nextPx: int, nextNx: int)
    requires 0 <= px <= |p| && 0 <= nx <= |v| && 0 <= nextPx <= |p|
  {
    || Denotes(p[px..], v[nx..])
    || (0 < nextNx <= |v| && Denotes(p[nextPx..], v[nextNx..]))
  }

  lemma ColumnBound(cells: set<(int, int)>, col: int, n: nat)
    requires forall c :: c in cells ==> c.0 == col && 0 <= c.1 < n
    ensures |cells| <= n
  {
    if n == 0 {
      assert cells == {};
    } else {
      var rest := cells - {(col, n - 1)};
      ColumnBound(rest, col, n - 1);
    }
  }

  lemma GridBound(cells: set<(int, int)>, m: nat, n: nat)
    requires forall c :: c in cells ==> 0 <= c.0 < m && 0 <= c.1 < n
    ensures |cells| <= m * n
  {
    if m == 0 {
      assert cells == {};
    } else {
      var column := set c | c in cells && c.0 == m - 1;
      ColumnBound(column, m - 1, n);
      GridBound(cells - column, m - 1, n);
      assert cells == column + (cells - column);
      assert m * n == (m - 1) * n + n;
    }
  }

  /** Everything the matcher maintains: the decision is still the same, and the pairs
      examined so far all lie behind the current one. */
  ghost predicate Invariant(p: seq<PatternChar>, v: string, seen: set<(int, int)>, px: int, nx: int, nextPx: int, nextNx: int)
  {
    && 0 <= px <= |p| && 0 <= nx <= |v| && 0 <= nextPx <= |p| && 0 <= nextNx <= |v| + 1
    && OnTrack(p, px, nx, nextPx, nextNx)
    && (Denotes(p, v) <==> Pending(p, v, px, nx, nextPx, nextNx))
    && Behind(p, seen, px, nx, nextPx, nextNx)
    && (forall c :: c in seen ==> 0 <= c.0 < |p| + 1 && 0 <= c.1 < |v| + 1)
  }

  ghost function StepLimit(p: seq<PatternChar>, v: string): nat {
    (|p| + 1) * (|v| + 1)
  }

  lemma NeverRevisited(p: seq<PatternChar>, v: string, seen: set<(int, int)>, px: nat, nx: nat, nextPx: nat, nextNx: nat)
    requires Invariant(p, v, seen, px, nx, nextPx, nextNx)
    ensures |seen + {(px, nx)}| == |seen| + 1 <= StepLimit(p, v)
  {
    assert (px, nx) !in seen;
    GridBound(seen + {(px, nx)}, |p| + 1, |v| + 1);
  }

  /** One element matched one character. */
  lemma StepOne(p: seq<PatternChar>, v: string, seen: set<(int, int)>, px: nat, nx: nat, nextPx: nat, nextNx: nat)
    requires Invariant(p, v, seen, px, nx, nextPx, nextNx)
    requires px < |p| && nx < |v|
    requires p[px].WildcardSingle? || (p[px].Char? && p[px].c == v[nx])
    ensures Invariant(p, v, seen + {(px, nx)}, px + 1, nx + 1, nextPx, nextNx)
  {
    assert p[px..][0] == p[px] && p[px..][1..] == p[px + 1..];
    assert v[nx..][0] == v[nx] && v[nx..][1..] == v[nx + 1..];
    assert Denotes(p[px..], v[nx..]) <==> Denotes(p[px + 1..], v[nx + 1..]);
  }

  /** A star is remembered in place of the previous one. */
  lemma StepStar(p: seq<PatternChar>, v: string, seen: set<(int, int)>, px: nat, nx: nat, nextPx: nat, nextNx: nat)
    requires Invariant(p, v, seen, px, nx, nextPx, nextNx)
    requires px < |p| && p[px].WildcardMany?
    ensures Invariant(p, v, seen + {(px, nx)}, px + 1, nx, px, nx + 1)
  {
    assert p[px..][0] == p[px] && p[px..][1..] == p[px + 1..];
    StarUnroll(p[px..], v[nx..]);
    if nx < |v| {
      assert v[nx..][1..] == v[nx + 1..];
    }
    if 0 < nextNx <= |v| && px > nextPx && Denotes(p[nextPx..], v[nextNx..]) {
      LaterStarSuffices(p, v, nextPx, nextNx - 1, px, nx);
    }
    assert Pending(p, v, px, nx, nextPx, nextNx) <==> Pending(p, v, px + 1, nx, px, nx + 1);
  }

  /** The current position is hopeless. */
  lemma StuckHere(p: seq<PatternChar>, v: string, px: nat, nx: nat)
    requires px <= |p| && nx <= |v| && (px < |p| || nx < |v|)
    requires px < |p| ==> !p[px].WildcardMany?
    requires px < |p| && nx < |v| ==> p[px].Char? && p[px].c != v[nx]
    ensures !Denotes(p[px..], v[nx..])
  {
    if px < |p| {
      assert p[px..][0] == p[px];
    }
  }

  lemma StepRetry(p: seq<PatternChar>, v: string, seen: set<(int, int)>, px: nat, nx: nat, nextPx: nat, nextNx: nat)
    requires Invariant(p, v, seen, px, nx, nextPx, nextNx)
    requires !Denotes(p[px..], v[nx..]) && 0 < nextNx <= |v|
    requires px < |p| ==> !p[px].WildcardMany?
    ensures Invariant(p, v, seen + {(px, nx)}, nextPx, nextNx, nextPx, nextNx)
  {
  }

  /** The element at px consumes the character at nx. */
  predicate Consumes(p: seq<PatternChar>, v: string, px: nat, nx: nat) {
    px < |p| && nx < |v| && (p[px].WildcardSingle? || (p[px].Char? && p[px].c == v[nx]))
  }

  /** What one iteration does: continue from other positions, or answer. */
  datatype Outcome = Go(px: nat, nx: nat, nextPx: nat, nextNx: nat) | Accept | Reject

  function Next(p: seq<PatternChar>, v: string, px: nat, nx: nat, nextPx: nat, nextNx: nat): Outcome {
    if px >= |p| && nx >= |v| then Accept
    else if px < |p| && p[px].WildcardMany? then Go(px + 1, nx, px, nx + 1)
    else if Consumes(p, v, px, nx) then Go(px + 1, nx + 1, nextPx, nextNx)
    else if 0 < nextNx <= |v| then Go(nextPx, nextNx, nextPx, nextNx)
    else Reject
  }

  /** The matcher's situation after n iterations. */
  ghost function Run(p: seq<PatternChar>, v: string, n: nat): Outcome {
    if n == 0 then Go(0, 0, 0, 0)
    else match Run(p, v, n - 1)
      case Go(px, nx, nextPx, nextNx) => Next(p, v, px, nx, nextPx, nextNx)
      case answer => answer
  }

  /** The position pairs examined by the first n iterations. */
  ghost function Seen(p: seq<PatternChar>, v: string, n: nat): set<(int, int)> {
    if n == 0 then {}
    else match Run(p, v, n - 1)
      case Go(px, nx, _, _) => Seen(p, v, n - 1) + {(px, nx)}
      case _ => Seen(p, v, n - 1)
  }

  lemma NextKeeps(p: seq<PatternChar>, v: string, seen: set<(int, int)>, px: nat, nx: nat, nextPx: nat, nextNx: nat)
    requires Invariant(p, v, seen, px, nx, nextPx, nextNx)
    ensures match Next(p, v, px, nx, nextPx, nextNx)
            case Accept => Denotes(p, v)
            case Reject => !Denotes(p, v)
            case Go(px', nx', nextPx', nextNx') => Invariant(p, v, seen + {(px, nx)}, px', nx', nextPx', nextNx')
  {
    if px < |p| && p[px].WildcardMany? {
      StepStar(p, v, seen, px, nx, nextPx, nextNx);
    } else if Consumes(p, v, px, nx) {
      StepOne(p, v, seen, px, nx, nextPx, nextNx);
    } else if px < |p| || nx < |v| {
      StuckHere(p, v, px, nx);
      if 0 < nextNx <= |v| {
        StepRetry(p, v, seen, px, nx, nextPx, nextNx);
      }
    }
  }

  /** As long as there is no answer every iteration looked at a new pair of positions. */
  lemma {:induction false} RunKeeps(p: seq<PatternChar>, v: string, n: nat)
    requires Run(p, v, n).Go?
    ensures var r := Run(p, v, n);
            && Invariant(p, v, Seen(p, v, n), r.px, r.nx, r.nextPx, r.nextNx)
            && |Seen(p, v, n)| == n < StepLimit(p, v)
  {
    if n == 0 {
      assert p[0..] == p && v[0..] == v;
      NeverRevisited(p, v, {}, 0, 0, 0, 0);
    } else {
      RunKeeps(p, v, n - 1);
      var r, r' := Run(p, v, n - 1), Run(p, v, n);
      NextKeeps(p, v, Seen(p, v, n - 1), r.px, r.nx, r.nextPx, r.nextNx);
      NeverRevisited(p, v, Seen(p, v, n - 1), r.px, r.nx, r.nextPx, r.nextNx);
      NeverRevisited(p, v, Seen(p, v, n), r'.px, r'.nx, r'.nextPx, r'.nextNx);
    }
  }

  lemma RunBounds(p: seq<PatternChar>, v: string, n: nat)
    requires Run(p, v, n).Go?
    ensures var r := Run(p, v, n); r.px <= |p| && r.nx <= |v| && n < StepLimit(p, v)
  {
    RunKeeps(p, v, n);
  }

  /** Whatever the matcher answers is the truth. */
  lemma RunAnswers(p: seq<PatternChar>, v: string, n: nat)
    requires Run(p, v, n).Go?
    ensures Run(p, v, n + 1).Accept? ==> Denotes(p, v)
    ensures Run(p, v, n + 1).Reject? ==> !Denotes(p, v)
  {
    RunKeeps(p, v, n);
    var r := Run(p, v, n);
    NextKeeps(p, v, Seen(p, v, n), r.px, r.nx, r.nextPx, r.nextNx);
  }

  /** The matcher returns true exactly on the values the pattern denotes, and looks at
      each pair of positions at most once. */
  method Matches(g: GlobPattern, value: string, t: CaseTables) returns (matched: bool, ghost steps: nat)
    ensures matched <==> Denotes(g.pattern, Subject(g, value, t))
    ensures steps <= StepLimit(g.pattern, Subject(g, value, t))
  {
    var v := if g.toLower then t.lowerText(value) else value;
    var p := g.pattern;
    var px, nx, nextPx, nextNx := 0, 0, 0, 0;
    steps := 0;
    while px < |p| || nx < |v|
      invariant Run(p, v, steps) == Go(px, nx, nextPx, nextNx)
      decreases StepLimit(p, v) - steps
    {
      RunBounds(p, v, steps);
      RunAnswers(p, v, steps);
      steps := steps + 1;
      if px < |p| {
        match p[px]
        case Char(c, _) =>
          if nx < |v| && v[nx] == c {
            px, nx := px + 1, nx + 1;
            continue;
          }
        case WildcardSingle(_) =>
          if nx < |v| {
            px, nx := px + 1, nx + 1;
            continue;
          }
        case WildcardMany(_, _) =>
          nextPx, nextNx, px := px, nx + 1, px + 1;
          continue;
      }
      if 0 < nextNx && nextNx <= |v| {
        px, nx := nextPx, nextNx;
        continue;
      }
      return false, steps;
    }
    RunBounds(p, v, steps);
    RunAnswers(p, v, steps);
    return true, steps;
  }

  // ---------------------------------------------------------------- compilation

  /** A literal character as it is stored: lower-cased on request. */
  function Fold(c: char, toLower: bool, t: CaseTables): string {
    if toLower && t.isUpper(c) then t.lowerChar(c) else [c]
  }

  function FoldAll(w: string, toLower: bool, t: CaseTables): string {
    if w == [] then [] else Fold(w[0], toLower, t) + FoldAll(w[1..], toLower, t)
  }

  function Literals(w: string): (p: seq<PatternChar>)
    ensures |p| == |w| && forall i :: 0 <= i < |w| ==> p[i] == Char(w[i], 0)
  {
    if w == [] then [] else [Char(w[0], 0)] + Literals(w[1..])
  }

  /** Where the run of stars that starts at a position ends. */
  function StarsEnd(s: string, i: nat): (n: nat)
    requires i <= |s|
    ensures i <= n <= |s|
    decreases |s| - i
  {
    if i == |s| || s[i] != '*' then i else StarsEnd(s, i + 1)
  }

  /** The elements compiled from a text from a position on, given the escape flag. */
  function Parse(s: string, i: nat, escaped: bool, toLower: bool, t: CaseTables): seq<PatternChar>
    requires i <= |s|
    decreases |s| - i
  {
    if i == |s| then []
    else if s[i] == '*' && !escaped then
      var n := StarsEnd(s, i + 1);
      [WildcardMany(n - i, 0)] + Parse(s, n, false, toLower, t)
    else if s[i] == '?' && !escaped then
      [WildcardSingle(0)] + Parse(s, i + 1, false, toLower, t)
    else if s[i] == '\\' && !escaped then
      Parse(s, i + 1, true, toLower, t)
    else
      Literals(Fold(s[i], toLower, t)) + Parse(s, i + 1, false, toLower, t)
  }

  /** The meaning of a pattern text read directly, character by character: every single
      unescaped star stands for any run, and an escaped character for itself. */
  ghost predicate TextDenotes(s: string, escaped: bool, toLower: bool, t: CaseTables, v: string)
    decreases |s|
  {
    if s == [] then v == []
    else if s[0] == '*' && !escaped then
      exists k :: 0 <= k <= |v| && TextDenotes(s[1..], false, toLower, t, v[k..])
    else if s[0] == '?' && !escaped then
      v != [] && TextDenotes(s[1..], false, toLower, t, v[1..])
    else if s[0] == '\\' && !escaped then
      TextDenotes(s[1..], true, toLower, t, v)
    else
      var lit := Fold(s[0], toLower, t);
      lit <= v && TextDenotes(s[1..], false, toLower, t, v[|lit|..])
  }

  /** A leading star makes a second one superfluous. */
  lemma DoubleStar(s: string, toLower: bool, t: CaseTables, v: string)
    requires |s| > 1 && s[0] == '*' && s[1] == '*'
    ensures TextDenotes(s, false, toLower, t, v) <==> TextDenotes(s[1..], false, toLower, t, v)
  {
    var s1 := s[1..];
    if TextDenotes(s, false, toLower, t, v) {
      var k :| 0 <= k <= |v| && TextDenotes(s1, false, toLower, t, v[k..]);
      var j :| 0 <= j <= |v[k..]| && TextDenotes(s1[1..], false, toLower, t, v[k..][j..]);
      assert v[k..][j..] == v[k + j..];
    }
    if TextDenotes(s1, false, toLower, t, v) {
      assert v[0..] == v;
    }
  }

  /** So a run of stars means the same as its last star. */
  lemma {:induction false} StarRunMeaning(s: string, i: nat, toLower: bool, t: CaseTables, v: string)
    requires i < |s| && s[i] == '*'
    ensures TextDenotes(s[i..], false, toLower, t, v) <==>
            exists k :: 0 <= k <= |v| && TextDenotes(s[StarsEnd(s, i + 1)..], false, toLower, t, v[k..])
    decreases |s| - i
  {
    assert s[i..][1..] == s[i + 1..];
    if i + 1 < |s| && s[i + 1] == '*' {
      DoubleStar(s[i..], toLower, t, v);
      StarRunMeaning(s, i + 1, toLower, t, v);
    }
  }

  lemma {:induction false} LiteralsThen(w: string, p: seq<PatternChar>, v: string)
    ensures Denotes(Literals(w) + p, v) <==> w <= v && Denotes(p, v[|w|..])
    decreases |w|
  {
    if w == [] {
      assert Literals(w) + p == p && v[0..] == v;
    } else {
      assert (Literals(w) + p)[1..] == Literals(w[1..]) + p;
      if v != [] {
        LiteralsThen(w[1..], p, v[1..]);
        if v[0] == w[0] {
          assert w <= v <==> w[1..] <= v[1..];
          if w <= v {
            assert v[1..][|w[1..]|..] == v[|w|..];
          }
        }
      }
    }
  }

  /** Compiling keeps the meaning of the text. */
  lemma {:induction false} ParseMeaning(s: string, i: nat, escaped: bool, toLower: bool, t: CaseTables, v: string)
    requires i <= |s|
    ensures Denotes(Parse(s, i, escaped, toLower, t), v) <==> TextDenotes(s[i..], escaped, toLower, t, v)
    decreases |s| - i
  {
    if i < |s| {
      assert s[i..][0] == s[i] && s[i..][1..] == s[i + 1..];
      var p := Parse(s, i, escaped, toLower, t);
      if s[i] == '*' && !escaped {
        var n := StarsEnd(s, i + 1);
        assert p[0].WildcardMany? && p[1..] == Parse(s, n, false, toLower, t);
        StarRunMeaning(s, i, toLower, t, v);
        forall k | 0 <= k <= |v|
          ensures Denotes(p[1..], v[k..]) <==> TextDenotes(s[n..], false, toLower, t, v[k..])
        {
          ParseMeaning(s, n, false, toLower, t, v[k..]);
        }
      } else if s[i] == '?' && !escaped {
        assert p[1..] == Parse(s, i + 1, false, toLower, t);
        if v != [] {
          ParseMeaning(s, i + 1, false, toLower, t, v[1..]);
        }
      } else if s[i] == '\\' && !escaped {
        ParseMeaning(s, i + 1, true, toLower, t, v);
      } else {
        var lit := Fold(s[i], toLower, t);
        LiteralsThen(lit, Parse(s, i + 1, false, toLower, t), v);
        if lit <= v {
          ParseMeaning(s, i + 1, false, toLower, t, v[|lit|..]);
        }
      }
    }
  }

  /** What the scan ends with, from a position on and with some elements collected. */
  function Scan(s: string, i: nat, escaped: bool, chars: seq<PatternChar>, toLower: bool, t: CaseTables): seq<PatternChar>
    requires i <= |s|
    decreases |s| - i
  {
    if i == |s| then chars
    else if s[i] == '*' && !escaped then
      var n := StarsEnd(s, i + 1);
      Scan(s, n, false, chars + [WildcardMany(n - i, 0)], toLower, t)
    else if s[i] == '?' && !escaped then
      Scan(s, i + 1, false, chars + [WildcardSingle(0)], toLower, t)
    else if s[i] == '\\' && !escaped then
      Scan(s, i + 1, true, chars, toLower, t)
    else
      Scan(s, i + 1, false, chars + Literals(Fold(s[i], toLower, t)), toLower, t)
  }

  lemma {:induction false} ScanCollects(s: string, i: nat, escaped: bool, chars: seq<PatternChar>, toLower: bool, t: CaseTables)
    requires i <= |s|
    ensures Scan(s, i, escaped, chars, toLower, t) == chars + Parse(s, i, escaped, toLower, t)
    decreases |s| - i
  {
    hide Fold, Literals, StarsEnd;
    if i == |s| {
    } else if s[i] == '*' && !escaped {
      var n := StarsEnd(s, i + 1);
      ScanCollects(s, n, false, chars + [WildcardMany(n - i, 0)], toLower, t);
      Regroup(chars, [WildcardMany(n - i, 0)], Parse(s, n, false, toLower, t));
    } else if s[i] == '?' && !escaped {
      ScanCollects(s, i + 1, false, chars + [WildcardSingle(0)], toLower, t);
      Regroup(chars, [WildcardSingle(0)], Parse(s, i + 1, false, toLower, t));
    } else if s[i] == '\\' && !escaped {
      ScanCollects(s, i + 1, true, chars, toLower, t);
    } else {
      var lit := Literals(Fold(s[i], toLower, t));
      ScanCollects(s, i + 1, false, chars + lit, toLower, t);
      Regroup(chars, lit, Parse(s, i + 1, false, toLower, t));
    }
  }

  lemma Regroup(a: seq<PatternChar>, b: seq<PatternChar>, c: seq<PatternChar>)
    ensures (a + b) + c == a + (b + c)
  {
  }

  lemma ScanMeaning(s: string, toLower: bool, t: CaseTables)
    ensures forall v :: Denotes(Scan(s, 0, false, [], toLower, t), v) <==> TextDenotes(s, false, toLower, t, v)
  {
    ScanCollects(s, 0, false, [], toLower, t);
    assert s[0..] == s && [] + Parse(s, 0, false, toLower, t) == Parse(s, 0, false, toLower, t);
    forall v ensures Denotes(Parse(s, 0, false, toLower, t), v) <==> TextDenotes(s, false, toLower, t, v) {
      ParseMeaning(s, 0, false, toLower, t, v);
    }
  }

  method PushLiterals(chars: seq<PatternChar>, w: string) returns (out: seq<PatternChar>)
    ensures out == chars + Literals(w)
  {
    out := chars;
    assert w[0..] == w;
    for k := 0 to |w|
      invariant out + Literals(w[k..]) == chars + Literals(w)
    {
      assert w[k..][1..] == w[k + 1..];
      out := out + [Char(w[k], 0)];
    }
  }

  /** The compiler's scan over the pattern text. */
  method Compile(text: string, toLower: bool, t: CaseTables) returns (g: GlobPattern)
    ensures g.toLower == toLower
    ensures forall v :: Denotes(g.pattern, v) <==> TextDenotes(text, false, toLower, t, v)
  {
    var chars: seq<PatternChar> := [];
    var isEscaped := false;
    var i := 0;
    while i < |text|
      invariant i <= |text|
      invariant Scan(text, i, isEscaped, chars, toLower, t) == Scan(text, 0, false, [], toLower, t)
    {
      var c := text[i];
      ghost var start := i;
      i := i + 1;
      if c == '*' && !isEscaped {
        var num := 1;
        while i < |text| && text[i] == '*'
          invariant i <= |text| && num == i - start
          invariant StarsEnd(text, i) == StarsEnd(text, start + 1)
        {
          num, i := num + 1, i + 1;
        }
        assert i == StarsEnd(text, start + 1);
        chars := chars + [WildcardMany(num, 0)];
      } else if c == '?' && !isEscaped {
        chars := chars + [WildcardSingle(0)];
      } else if c == '\\' && !isEscaped {
        isEscaped := true;
        continue;
      } else {
        if isEscaped {
          isEscaped := false;
        }
        if toLower && t.isUpper(c) {
          chars := PushLiterals(chars, t.lowerChar(c));
        } else {
          assert Literals([c]) == [Char(c, 0)];
          chars := chars + [Char(c, 0)];
        }
      }
    }
    ScanMeaning(text, toLower, t);
    g := GlobPattern(chars, toLower);
  }

  // ---------------------------------------------------------------- laws of pattern texts

  predicate Special(c: char) { c == '*' || c == '?' || c == '\\' }

  function Escape(w: string): string {
    if w == [] then []
    else (if Special(w[0]) then ['\\', w[0]] else [w[0]]) + Escape(w[1..])
  }

  lemma LiteralHead(c: char, rest: string, escaped: bool, toLower: bool, t: CaseTables, v: string)
    requires escaped || !Special(c)
    ensures var lit := Fold(c, toLower, t);
            TextDenotes([c] + rest, escaped, toLower, t, v) <==>
            lit <= v && TextDenotes(rest, false, toLower, t, v[|lit|..])
  {
    assert ([c] + rest)[1..] == rest;
  }

  lemma EscapedHead(c: char, rest: string, toLower: bool, t: CaseTables, v: string)
    ensures TextDenotes(['\\', c] + rest, false, toLower, t, v) <==> TextDenotes([c] + rest, true, toLower, t, v)
  {
    assert (['\\', c] + rest)[1..] == [c] + rest;
  }

  /** An escaped text matches itself (lower-cased when asked for) and nothing else. */
  lemma {:induction false} EscapedTextIsLiteral(w: string, toLower: bool, t: CaseTables, v: string)
    ensures TextDenotes(Escape(w), false, toLower, t, v) <==> v == FoldAll(w, toLower, t)
    decreases |w|
  {
    if w != [] {
      var c, rest, lit := w[0], Escape(w[1..]), Fold(w[0], toLower, t);
      if Special(c) {
        EscapedHead(c, rest, toLower, t, v);
      }
      LiteralHead(c, rest, Special(c), toLower, t, v);
      if lit <= v {
        EscapedTextIsLiteral(w[1..], toLower, t, v[|lit|..]);
        assert v == lit + v[|lit|..];
      }
    }
  }

  /** In case-sensitive mode the only match is the text itself. */
  lemma {:induction false} FoldAllExact(w: string, t: CaseTables)
    ensures FoldAll(w, false, t) == w
    decreases |w|
  {
    if w != [] {
      FoldAllExact(w[1..], t);
    }
  }

  lemma EscapedMatchesExactly(w: string, t: CaseTables, v: string)
    ensures TextDenotes(Escape(w), false, false, t, v) <==> v == w
  {
    EscapedTextIsLiteral(w, false, t, v);
    FoldAllExact(w, t);
  }

  /** When an escaped text matches itself: always if case counts, and otherwise if and only if
      lowering the value as a whole gives what lowering the pattern character by character
      gives. */
  lemma EscapedMatchesItselfIff(w: string, toLower: bool, t: CaseTables)
    ensures TextDenotes(Escape(w), false, toLower, t, if toLower then t.lowerText(w) else w) <==>
            (toLower ==> t.lowerText(w) == FoldAll(w, true, t))
  {
    EscapedTextIsLiteral(w, toLower, t, if toLower then t.lowerText(w) else w);
    FoldAllExact(w, t);
  }

  const SIGMA: char := '\U{03A3}'
  const SMALL_SIGMA: char := '\U{03C3}'
  const FINAL_SIGMA: char := '\U{03C2}'

  /** A word that ends with a capital sigma, under tables that lower it to a final sigma in a
      text and to the ordinary small one as a character: its own pattern does not match it. */
  lemma FinalSigma() returns (w: string, t: CaseTables)
    ensures t.isUpper(SIGMA) && t.lowerChar(SIGMA) == [SMALL_SIGMA] && w == "o" + [SIGMA] && t.lowerText(w) == "o" + [FINAL_SIGMA]
    ensures !TextDenotes(Escape(w), false, true, t, t.lowerText(w))
  {
    w := "o" + [SIGMA];
    t := CaseTables(c => c == SIGMA, c => if c == SIGMA then [SMALL_SIGMA] else [c],
                    s => if s == "o" + [SIGMA] then "o" + [FINAL_SIGMA] else s);
    var last := [SIGMA];
    assert w[1..] == last && last[1..] == [];
    assert FoldAll(last, true, t) == [SMALL_SIGMA] + FoldAll([], true, t);
    assert FoldAll(w, true, t) == "o" + FoldAll(last, true, t);
    assert FoldAll(w, true, t)[1] != t.lowerText(w)[1];
    EscapedMatchesItselfIff(w, true, t);
  }

  // ---------------------------------------------------------------- what lower-casing and wildcards mean

  /** A character of a pattern text as it is to be matched when case is ignored, for tables that
      lower a capital letter to one letter. */
  predicate LowersTo(c: char, d: char, t: CaseTables) {
    if t.isUpper(c) then t.lowerChar(c) == [d] else c == d
  }

  /** Equal up to case. */
  ghost predicate SameLetter(c: char, d: char, t: CaseTables) {
    exists e :: LowersTo(c, e, t) && LowersTo(d, e, t)
  }

  ghost predicate OneLetterEach(w: string, t: CaseTables) {
    forall i :: 0 <= i < |w| && t.isUpper(w[i]) ==> |t.lowerChar(w[i])| == 1
  }

  /** Without special characters a pattern text that ignores case matches exactly the values of
      its own length that have the lower-case letter wherever it has a capital one, and are equal
      to it elsewhere. */
  lemma {:induction false} LowerCaseLiteral(w: string, t: CaseTables, v: string)
    requires (forall i :: 0 <= i < |w| ==> !Special(w[i])) && OneLetterEach(w, t)
    ensures TextDenotes(w, false, true, t, v) <==> |v| == |w| && forall i :: 0 <= i < |w| ==> LowersTo(w[i], v[i], t)
    decreases |w|
  {
    if w != [] && v != [] {
      var rest := w[1..];
      assert w == [w[0]] + rest && v == [v[0]] + v[1..];
      LiteralHead(w[0], rest, false, true, t, v);
      var lit := Fold(w[0], true, t);
      assert |lit| == 1 && (lit <= v <==> LowersTo(w[0], v[0], t));
      LowerCaseLiteral(rest, t, v[1..]);
      assert forall i :: 0 < i < |w| ==> w[i] == rest[i - 1];
      assert forall i :: 0 < i < |v| ==> v[i] == v[1..][i - 1];
      assert forall i :: 0 <= i < |rest| ==> rest[i] == w[i + 1];
      assert forall i :: 0 <= i < |v[1..]| ==> v[1..][i] == v[i + 1];
    } else if w != [] {
      assert w == [w[0]] + w[1..];
      LiteralHead(w[0], w[1..], false, true, t, v);
    }
  }

  /** So, when the value is lowered letter by letter, the match is equality up to case. */
  lemma LiteralIgnoresCase(w: string, t: CaseTables, v: string)
    requires (forall i :: 0 <= i < |w| ==> !Special(w[i])) && OneLetterEach(w, t)
    requires |t.lowerText(v)| == |v| && forall i :: 0 <= i < |v| ==> LowersTo(v[i], t.lowerText(v)[i], t)
    ensures TextDenotes(w, false, true, t, t.lowerText(v)) <==>
            |w| == |v| && forall i :: 0 <= i < |w| ==> SameLetter(w[i], v[i], t)
  {
    var low := t.lowerText(v);
    LowerCaseLiteral(w, t, low);
    if |w| == |v| {
      forall i | 0 <= i < |w|
        ensures LowersTo(w[i], low[i], t) <==> SameLetter(w[i], v[i], t)
      {
        assert LowersTo(v[i], low[i], t);
        OneLower(v[i], low[i], t);
      }
    }
  }

  lemma OneLower(c: char, d: char, t: CaseTables)
    requires LowersTo(c, d, t)
    ensures forall e :: LowersTo(c, e, t) ==> e == d
  {
    forall e | LowersTo(c, e, t)
      ensures e == d
    {
      assert t.isUpper(c) ==> [e][0] == [d][0];
    }
  }

  /** The two texts differ at most in the case of ordinary letters. */
  ghost predicate SameButCase(w: string, x: string, t: CaseTables) {
    |w| == |x| && forall i :: 0 <= i < |w| ==>
      w[i] == x[i] || (!Special(w[i]) && !Special(x[i]) && SameLetter(w[i], x[i], t))
  }

  /** Then they are the same pattern if case is ignored, wildcards and escapes included. */
  lemma {:induction false} CaseDoesNotMatter(w: string, x: string, escaped: bool, t: CaseTables, v: string)
    requires SameButCase(w, x, t)
    ensures TextDenotes(w, escaped, true, t, v) <==> TextDenotes(x, escaped, true, t, v)
    decreases |w|
  {
    if w != [] {
      assert SameButCase(w[1..], x[1..], t);
      if w[0] == '*' && !escaped {
        forall k | 0 <= k <= |v|
          ensures TextDenotes(w[1..], false, true, t, v[k..]) <==> TextDenotes(x[1..], false, true, t, v[k..])
        {
          CaseDoesNotMatter(w[1..], x[1..], false, t, v[k..]);
        }
      } else if w[0] == '?' && !escaped {
        if v != [] {
          CaseDoesNotMatter(w[1..], x[1..], false, t, v[1..]);
        }
      } else if w[0] == '\\' && !escaped {
        CaseDoesNotMatter(w[1..], x[1..], true, t, v);
      } else {
        var lit := Fold(w[0], true, t);
        assert lit == Fold(x[0], true, t);
        if lit <= v {
          CaseDoesNotMatter(w[1..], x[1..], false, t, v[|lit|..]);
        }
      }
    }
  }

  /** An escaped text in front of another pattern text matches at the beginning. */
  lemma {:induction false} EscapedInFront(w: string, rest: string, toLower: bool, t: CaseTables, v: string)
    ensures var lit := FoldAll(w, toLower, t);
            TextDenotes(Escape(w) + rest, false, toLower, t, v) <==>
            lit <= v && TextDenotes(rest, false, toLower, t, v[|lit|..])
    decreases |w|
  {
    if w == [] {
      assert Escape(w) + rest == rest && v[0..] == v;
    } else {
      var c, tail, lit := w[0], Escape(w[1..]) + rest, Fold(w[0], toLower, t);
      if Special(c) {
        assert Escape(w) + rest == ['\\', c] + tail;
        EscapedHead(c, tail, toLower, t, v);
      } else {
        assert Escape(w) + rest == [c] + tail;
      }
      LiteralHead(c, tail, Special(c), toLower, t, v);
      if lit <= v {
        EscapedInFront(w[1..], rest, toLower, t, v[|lit|..]);
        PrefixInParts(lit, FoldAll(w[1..], toLower, t), v);
      } else {
        assert lit + FoldAll(w[1..], toLower, t) <= v ==> lit <= v;
      }
    }
  }

  lemma PrefixInParts(a: string, b: string, v: string)
    requires a <= v
    ensures a + b <= v <==> b <= v[|a|..]
    ensures b <= v[|a|..] ==> v[|a|..][|b|..] == v[|a + b|..]
  {
    assert v == a + v[|a|..];
    if a + b <= v {
      assert v[..|a| + |b|] == a + b;
      assert v[|a|..][..|b|] == b;
    }
  }

  lemma StarInFront(w: string, t: CaseTables, v: string)
    ensures TextDenotes(['*'] + Escape(w), false, false, t, v) <==> |w| <= |v| && v[|v| - |w|..] == w
  {
    var star := ['*'] + Escape(w);
    assert star[1..] == Escape(w);
    forall k | 0 <= k <= |v|
      ensures TextDenotes(star[1..], false, false, t, v[k..]) <==> v[k..] == w
    {
      EscapedMatchesExactly(w, t, v[k..]);
    }
    hide Escape;
    if |w| <= |v| && v[|v| - |w|..] == w {
      assert TextDenotes(star[1..], false, false, t, v[|v| - |w|..]);
    }
  }

  /** A star between two texts: the value begins with one and ends with the other, and the two do
      not overlap. */
  lemma StarBetween(u: string, w: string, t: CaseTables, v: string)
    ensures TextDenotes(Escape(u) + "*" + Escape(w), false, false, t, v) <==>
            |u| + |w| <= |v| && v[..|u|] == u && v[|v| - |w|..] == w
  {
    hide TextDenotes, Escape;
    assert Escape(u) + "*" + Escape(w) == Escape(u) + (['*'] + Escape(w));
    EscapedInFront(u, ['*'] + Escape(w), false, t, v);
    FoldAllExact(u, t);
    hide FoldAll;
    if u <= v {
      StarInFront(w, t, v[|u|..]);
      assert |u| + |w| <= |v| ==> v[|u|..][|v[|u|..]| - |w|..] == v[|v| - |w|..];
      assert v[..|u|] == u;
    } else if |u| <= |v| && v[..|u|] == u {
      assert false;
    }
  }

  lemma MarkInFront(w: string, t: CaseTables, v: string)
    ensures TextDenotes(['?'] + Escape(w), false, false, t, v) <==> v != [] && v[1..] == w
  {
    var mark := ['?'] + Escape(w);
    assert mark[1..] == Escape(w);
    if v != [] {
      EscapedMatchesExactly(w, t, v[1..]);
    }
  }

  /** A question mark between two texts: exactly one character more. */
  lemma MarkBetween(u: string, w: string, t: CaseTables, v: string)
    ensures TextDenotes(Escape(u) + "?" + Escape(w), false, false, t, v) <==> exists c :: v == u + [c] + w
  {
    hide TextDenotes, Escape;
    assert Escape(u) + "?" + Escape(w) == Escape(u) + (['?'] + Escape(w));
    EscapedInFront(u, ['?'] + Escape(w), false, t, v);
    FoldAllExact(u, t);
    hide FoldAll;
    if u <= v {
      MarkInFront(w, t, v[|u|..]);
      if v[|u|..] != [] {
        assert v == u + [v[|u|]] + v[|u|..][1..];
      }
    }
    if c :| v == u + [c] + w {
      assert u <= v && v[|u|..] == [c] + w && v[|u|..][1..] == w;
    }
  }

  /** Every run of unescaped stars replaced by one star. */
  function CollapseStars(s: string, escaped: bool): string {
    if s == [] then []
    else if !escaped && |s| > 1 && s[0] == '*' && s[1] == '*' then CollapseStars(s[1..], false)
    else [s[0]] + CollapseStars(s[1..], !escaped && s[0] == '\\')
  }

  lemma {:induction false} CollapseKeepsLanguage(s: string, escaped: bool, toLower: bool, t: CaseTables, v: string)
    ensures TextDenotes(CollapseStars(s, escaped), escaped, toLower, t, v) <==> TextDenotes(s, escaped, toLower, t, v)
    decreases |s|
  {
    if s == [] {
    } else if !escaped && |s| > 1 && s[0] == '*' && s[1] == '*' {
      DoubleStar(s, toLower, t, v);
      CollapseKeepsLanguage(s[1..], false, toLower, t, v);
    } else {
      var rest := CollapseStars(s[1..], !escaped && s[0] == '\\');
      assert CollapseStars(s, escaped)[1..] == rest;
      if s[0] == '*' && !escaped {
        forall k | 0 <= k <= |v|
          ensures TextDenotes(rest, false, toLower, t, v[k..]) <==> TextDenotes(s[1..], false, toLower, t, v[k..])
        {
          CollapseKeepsLanguage(s[1..], false, toLower, t, v[k..]);
        }
      } else if s[0] == '?' && !escaped {
        if v != [] {
          CollapseKeepsLanguage(s[1..], false, toLower, t, v[1..]);
        }
      } else if s[0] == '\\' && !escaped {
        CollapseKeepsLanguage(s[1..], true, toLower, t, v);
      } else {
        var lit := Fold(s[0], toLower, t);
        if lit <= v {
          CollapseKeepsLanguage(s[1..], false, toLower, t, v[|lit|..]);
        }
      }
    }
  }

  lemma Slices(v: string, k: nat, a: nat)
    requires a <= k <= |v|
    ensures v[..k][a..] == v[a..][..k - a] && v[k..] == v[a..][k - a..]
  {
  }

  lemma TailOfConcat(p: seq<PatternChar>, q: seq<PatternChar>)
    requires p != []
    ensures (p + q)[0] == p[0] && (p + q)[1..] == p[1..] + q
  {
  }

  // One element of a pattern at a time.

  lemma EmptyDenotes(s: string)
    ensures Denotes([], s) <==> s == []
  {
  }

  lemma StarMatches(p: seq<PatternChar>, s: string, k: nat)
    requires p != [] && p[0].WildcardMany? && k <= |s| && Denotes(p[1..], s[k..])
    ensures Denotes(p, s)
  {
  }

  lemma StarTakes(p: seq<PatternChar>, s: string) returns (k: nat)
    requires p != [] && p[0].WildcardMany? && Denotes(p, s)
    ensures k <= |s| && Denotes(p[1..], s[k..])
  {
    k :| 0 <= k <= |s| && Denotes(p[1..], s[k..]);
  }

  lemma OneMatches(p: seq<PatternChar>, s: string)
    requires p != [] && !p[0].WildcardMany?
    ensures Denotes(p, s) <==> s != [] && (p[0].Char? ==> s[0] == p[0].c) && Denotes(p[1..], s[1..])
  {
  }

  lemma {:induction false} ConcatJoin(p: seq<PatternChar>, q: seq<PatternChar>, v: string, k: nat)
    requires k <= |v| && Denotes(p, v[..k]) && Denotes(q, v[k..])
    ensures Denotes(p + q, v)
    decreases |p|
  {
    hide Denotes;
    if p == [] {
      EmptyDenotes(v[..k]);
      assert p + q == q && v[k..] == v;
    } else {
      TailOfConcat(p, q);
      if p[0].WildcardMany? {
        var a := StarTakes(p, v[..k]);
        Slices(v, k, a);
        ConcatJoin(p[1..], q, v[a..], k - a);
        StarMatches(p + q, v, a);
      } else {
        OneMatches(p, v[..k]);
        Slices(v, k, 1);
        ConcatJoin(p[1..], q, v[1..], k - 1);
        OneMatches(p + q, v);
      }
    }
  }

  lemma {:induction false} ConcatSplit(p: seq<PatternChar>, q: seq<PatternChar>, v: string) returns (k: nat)
    requires Denotes(p + q, v)
    ensures k <= |v| && Denotes(p, v[..k]) && Denotes(q, v[k..])
    decreases |p|
  {
    hide Denotes;
    if p == [] {
      EmptyDenotes(v[..0]);
      assert p + q == q && v[0..] == v;
      k := 0;
    } else {
      TailOfConcat(p, q);
      if p[0].WildcardMany? {
        var a := StarTakes(p + q, v);
        var j := ConcatSplit(p[1..], q, v[a..]);
        k := a + j;
        Slices(v, k, a);
        StarMatches(p, v[..k], a);
      } else {
        OneMatches(p + q, v);
        var j := ConcatSplit(p[1..], q, v[1..]);
        k := 1 + j;
        Slices(v, k, 1);
        OneMatches(p, v[..k]);
      }
    }
  }

  /** Patterns in sequence denote the concatenation of their languages. */
  lemma ConcatMeaning(p: seq<PatternChar>, q: seq<PatternChar>, v: string)
    ensures Denotes(p + q, v) <==> exists k :: 0 <= k <= |v| && Denotes(p, v[..k]) && Denotes(q, v[k..])
  {
    if Denotes(p + q, v) {
      var k := ConcatSplit(p, q, v);
    }
    forall k | 0 <= k <= |v| && Denotes(p, v[..k]) && Denotes(q, v[k..])
      ensures Denotes(p + q, v)
    {
      ConcatJoin(p, q, v, k);
    }
  }
}
