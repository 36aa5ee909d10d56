/** Splitting a domain at its public suffix (crates/utils/src/suffixlist.rs). */
module PublicSuffix {
  import opened Common

  datatype Suffixes = Suffixes(suffixes: set<string>, exceptions: set<string>, wildcards: seq<string>)

  datatype DomainPart = Sld | Tld | Host

  predicate EndsWith(s: string, w: string) {
    |w| <= |s| && s[|s| - |w|..] == w
  }

  predicate Contains(ps: Suffixes, suffix: string) {
    || suffix in ps.suffixes
    || (suffix !in ps.exceptions && exists w :: w in ps.wildcards && EndsWith(suffix, w))
  }

  /** One label in front of a wildcard's ending. */
  predicate Covers(w: string, s: string) {
    EndsWith(s, w) && |s| > |w| && '.' !in s[..|s| - |w|]
  }

  /** What a wildcard stands for: in the code any text in front of its ending, in the format
      of the list exactly one label. */
  datatype Reading = AsCoded | OneLabel

  predicate Public(ps: Suffixes, how: Reading, s: string) {
    match how
    case AsCoded => Contains(ps, s)
    case OneLabel => s in ps.suffixes || (s !in ps.exceptions && exists w :: w in ps.wildcards && Covers(w, s))
  }

  // ---------------------------------------------------------------- reading a list

  /** A list line after trimming and lower-casing: a comment, a wildcard, an exception or a
      plain suffix. The empty line counts as a plain suffix. */
  predicate Comment(line: string) {
    "//" <= line
  }

  predicate Wild(line: string) {
    !Comment(line) && "*" <= line
  }

  predicate Exception(line: string) {
    !Comment(line) && "!" <= line
  }

  predicate Plain(line: string) {
    !Comment(line) && !Wild(line) && !Exception(line)
  }

  /** What a list says about a suffix. */
  ghost predicate Listed(lines: seq<string>, suffix: string) {
    || suffix == "onion"
    || (suffix in lines && Plain(suffix))
    || ("!" + suffix !in lines && exists line :: line in lines && Wild(line) && EndsWith(suffix, line[1..]))
  }

  ghost predicate ReadSoFar(lines: seq<string>, ps: Suffixes) {
    && (forall s :: s in ps.suffixes <==> s in lines && Plain(s))
    && (forall s :: s in ps.exceptions <==> "!" + s in lines)
    && (forall w :: w in ps.wildcards ==> "*" + w in lines)
    && (forall line :: line in lines && Wild(line) ==> line[1..] in ps.wildcards)
  }

  lemma ReadLine(lines: seq<string>, line: string, ps: Suffixes)
    requires ReadSoFar(lines, ps)
    ensures Comment(line) ==> ReadSoFar(lines + [line], ps)
    ensures Wild(line) ==> ReadSoFar(lines + [line], ps.(wildcards := ps.wildcards + [line[1..]]))
    ensures Exception(line) ==> ReadSoFar(lines + [line], ps.(exceptions := ps.exceptions + {line[1..]}))
    ensures Plain(line) ==> ReadSoFar(lines + [line], ps.(suffixes := ps.suffixes + {line}))
  {
    assert forall s: string :: s in lines + [line] <==> s in lines || s == line;
    assert forall s: string :: ("!" + s)[1..] == s && ("*" + s)[1..] == s;
    assert Wild(line) ==> line == "*" + line[1..];
    assert Exception(line) ==> line == "!" + line[1..];
    assert forall s: string :: ("!" + s)[0] == '!' && ("*" + s)[0] == '*';
  }

  /** Reading a list: asking the result is asking the list. */
  method FromList(lines: seq<string>) returns (ps: Suffixes)
    ensures forall s :: Contains(ps, s) <==> Listed(lines, s)
  {
    hide ReadSoFar, Contains, Listed;
    ps := Suffixes({}, {}, []);
    ReadNothing();
    for i := 0 to |lines|
      invariant ReadSoFar(lines[..i], ps)
    {
      var line := lines[i];
      ReadLine(lines[..i], line, ps);
      assert lines[..i + 1] == lines[..i] + [line];
      if !("//" <= line) {
        if "*" <= line {
          ps := ps.(wildcards := ps.wildcards + [line[1..]]);
        } else if "!" <= line {
          ps := ps.(exceptions := ps.exceptions + {line[1..]});
        } else {
          ps := ps.(suffixes := ps.suffixes + {line});
        }
      }
    }
    assert lines[..|lines|] == lines;
    ghost var read := ps;
    ps := ps.(suffixes := ps.suffixes + {"onion"});
    forall s
      ensures Contains(ps, s) <==> Listed(lines, s)
    {
      ReadMeansListed(lines, read, s);
    }
  }

  lemma ReadNothing()
    ensures ReadSoFar([], Suffixes({}, {}, []))
  {
  }

  lemma ReadMeansListed(lines: seq<string>, ps: Suffixes, s: string)
    requires ReadSoFar(lines, ps)
    ensures Contains(ps.(suffixes := ps.suffixes + {"onion"}), s) <==> Listed(lines, s)
  {
    if w :| w in ps.wildcards && EndsWith(s, w) {
      assert ("*" + w)[0] == '*';
      assert Wild("*" + w) && ("*" + w)[1..] == w && "*" + w in lines;
    }
  }

  // ---------------------------------------------------------------- cutting a domain

  /** A place where the domain may be cut: after a dot, with another dot further on. */
  predicate Cut(d: string, i: int) {
    0 < i <= |d| && d[i - 1] == '.' && '.' in d[i..]
  }

  /** A cut that leaves something that is not a public suffix. */
  predicate Registrable(ps: Suffixes, how: Reading, d: string, i: int) {
    Cut(d, i) && !Public(ps, how, d[i..])
  }

  /** The cut nearest to the end. */
  ghost predicate LastCut(ps: Suffixes, how: Reading, d: string, i: int) {
    Registrable(ps, how, d, i) && forall j :: Registrable(ps, how, d, j) ==> j <= i
  }

  ghost predicate NoCut(ps: Suffixes, how: Reading, d: string) {
    forall j :: !Registrable(ps, how, d, j)
  }

  /** What each part of a domain is. */
  ghost predicate IsPart(ps: Suffixes, how: Reading, d: string, part: DomainPart, r: Option<string>) {
    match part
    case Tld => if '.' in d then exists i :: 0 < i <= |d| && d[i - 1] == '.' && '.' !in d[i..] && r == Some(d[i..]) else r == None
    case Sld =>
      if '.' !in d then r == None
      else if NoCut(ps, how, d) then r == Some(d)
      else exists i :: LastCut(ps, how, d, i) && r == Some(d[i..])
    case Host =>
      if '.' !in d then r == Some(d)
      else if NoCut(ps, how, d) then r == None
      else exists i :: LastCut(ps, how, d, i) && r == Some(d[..i - 1])
  }

  /** The reverse scan with its flag; `fold` is trimming and lower-casing. */
  method Part(ps: Suffixes, domain: string, part: DomainPart, fold: string -> string) returns (r: Option<string>)
    ensures IsPart(ps, AsCoded, fold(domain), part, r)
  {
    var d := fold(domain);
    var seenDot := false;
    for pos := |d| downto 0
      invariant seenDot <==> '.' in d[pos..]
      invariant seenDot ==> part != Tld
      invariant forall j :: Registrable(ps, AsCoded, d, j) ==> j <= pos
    {
      assert d[pos..] == [d[pos]] + d[pos + 1..];
      if d[pos] == '.' {
        if seenDot {
          if !Contains(ps, d[pos + 1..]) {
            assert LastCut(ps, AsCoded, d, pos + 1);
            return if part == Sld then Some(d[pos + 1..]) else Some(d[..pos]);
          }
        } else if part == Tld {
          return Some(d[pos + 1..]);
        } else {
          seenDot := true;
        }
      }
    }
    assert d[0..] == d;
    if seenDot {
      return if part == Sld then Some(d) else None;
    }
    return if part == Host then Some(d) else None;
  }

  // ---------------------------------------------------------------- what the parts have to do with each other

  lemma NoDotAfter(d: string, i: nat)
    requires i <= |d| && '.' !in d[i..]
    ensures forall k :: i <= k < |d| ==> d[k] != '.'
  {
    forall k | i <= k < |d|
      ensures d[k] != '.'
    {
      assert d[i..][k - i] == d[k];
    }
  }

  /** There is one answer to each question. */
  lemma PartIsUnique(ps: Suffixes, how: Reading, d: string, part: DomainPart, r: Option<string>, r': Option<string>)
    requires IsPart(ps, how, d, part, r) && IsPart(ps, how, d, part, r')
    ensures r == r'
  {
    if part == Tld && '.' in d {
      var i :| 0 < i <= |d| && d[i - 1] == '.' && '.' !in d[i..] && r == Some(d[i..]);
      var j :| 0 < j <= |d| && d[j - 1] == '.' && '.' !in d[j..] && r' == Some(d[j..]);
      NoDotAfter(d, i);
      NoDotAfter(d, j);
    }
  }

  /** A domain without a dot is its own host and has no other part; with a dot it has a top-level
      and a second-level domain. */
  lemma DotDecides(ps: Suffixes, how: Reading, d: string, part: DomainPart, r: Option<string>)
    requires IsPart(ps, how, d, part, r)
    ensures part != Host ==> (r.Some? <==> '.' in d)
    ensures '.' !in d ==> r == if part == Host then Some(d) else None
  {
    hide Public;
  }

  /** Host and second-level domain are the two sides of one dot exactly when the
      second-level domain is not the whole. */
  lemma HostDotSld(ps: Suffixes, how: Reading, d: string, host: Option<string>, sld: Option<string>)
    requires '.' in d && IsPart(ps, how, d, Host, host) && IsPart(ps, how, d, Sld, sld)
    ensures sld.Some? && (host.Some? <==> sld.value != d)
    ensures host.Some? ==> host.value + "." + sld.value == d
    ensures '.' in sld.value
  {
    if !NoCut(ps, how, d) {
      var i :| LastCut(ps, how, d, i) && host == Some(d[..i - 1]);
      var j :| LastCut(ps, how, d, j) && sld == Some(d[j..]);
      assert i == j && Cut(d, i);
      hide *;
      CutSides(d, i);
    }
  }

  lemma CutSides(d: string, i: int)
    requires Cut(d, i)
    ensures d[..i - 1] + "." + d[i..] == d && d[i..] != d && '.' in d[i..]
  {
    assert |d[i..]| < |d|;
  }

  /** A label-aligned suffix of at least two labels. */
  ghost predicate Aligned(d: string, s: string) {
    '.' in s && EndsWith(d, s) && (s == d || d[|d| - |s| - 1] == '.')
  }

  lemma SldAtCut(ps: Suffixes, how: Reading, d: string, i: int, sld: string)
    requires '.' in d && LastCut(ps, how, d, i) && IsPart(ps, how, d, Sld, Some(sld))
    ensures sld == d[i..]
  {
    hide Public;
  }

  lemma NoCutNoSld(ps: Suffixes, how: Reading, d: string, sld: string)
    requires '.' in d && NoCut(ps, how, d) && IsPart(ps, how, d, Sld, Some(sld))
    ensures sld == d
  {
    hide Public;
  }

  lemma SldCut(ps: Suffixes, how: Reading, d: string, sld: string) returns (i: int)
    requires '.' in d && !NoCut(ps, how, d) && IsPart(ps, how, d, Sld, Some(sld))
    ensures LastCut(ps, how, d, i) && Cut(d, i) && sld == d[i..]
  {
    hide Public;
    i :| LastCut(ps, how, d, i) && sld == d[i..];
  }

  /** The second-level domain is the shortest label-aligned suffix of two or more labels
      that is not public, and the whole domain if there is none. */
  lemma SldIsShortest(ps: Suffixes, how: Reading, d: string, sld: string)
    requires '.' in d && IsPart(ps, how, d, Sld, Some(sld))
    ensures Aligned(d, sld)
    ensures sld != d ==> !Public(ps, how, sld)
    ensures forall s :: Aligned(d, s) && !Public(ps, how, s) ==> |sld| <= |s|
  {
    hide Public, IsPart, Cut;
    if NoCut(ps, how, d) {
      NoCutNoSld(ps, how, d, sld);
      assert EndsWith(d, d);
    } else {
      var i := SldCut(ps, how, d, sld);
      CutIsAligned(d, i);
    }
    forall s | Aligned(d, s) && !Public(ps, how, s)
      ensures |sld| <= |s|
    {
      AlignedIsCut(ps, how, d, s);
    }
  }

  lemma CutIsAligned(d: string, i: int)
    requires Cut(d, i)
    ensures Aligned(d, d[i..])
  {
  }

  lemma AlignedIsCut(ps: Suffixes, how: Reading, d: string, s: string)
    requires Aligned(d, s) && !Public(ps, how, s)
    ensures s == d || (|s| <= |d| && Registrable(ps, how, d, |d| - |s|))
  {
    hide Public;
    assert d[|d| - |s|..] == s;
  }

  /** The top-level domain has no dot and ends every other part but the host. */
  lemma TldEndsSld(ps: Suffixes, how: Reading, d: string, tld: string, sld: string)
    requires IsPart(ps, how, d, Tld, Some(tld)) && IsPart(ps, how, d, Sld, Some(sld))
    ensures '.' !in tld && EndsWith(sld, "." + tld)
  {
    var i :| 0 < i <= |d| && d[i - 1] == '.' && '.' !in d[i..] && tld == d[i..];
    SldIsShortest(ps, how, d, sld);
    LastDot(d, i, sld);
  }

  lemma LastDot(d: string, i: int, s: string)
    requires 0 < i <= |d| && d[i - 1] == '.' && '.' !in d[i..] && '.' in s && EndsWith(d, s)
    ensures EndsWith(s, "." + d[i..])
  {
    NoDotAfter(d, i);
    var j := |d| - |s|;
    var k :| 0 <= k < |s| && s[k] == '.';
    assert s[k] == d[j + k];
    assert j + k <= i - 1;
    var t := "." + d[i..];
    assert |s| - |t| == i - 1 - j;
    assert s[i - 1 - j..] == t;
  }

  // ---------------------------------------------------------------- what a wildcard means

  /** A suffix that only the code takes for public: some wildcard ends it, but none with
      exactly one label in front. */
  predicate Swallowed(ps: Suffixes, s: string) {
    && s !in ps.suffixes && s !in ps.exceptions
    && (exists w :: w in ps.wildcards && EndsWith(s, w))
    && (forall w :: w in ps.wildcards ==> !Covers(w, s))
  }

  /** The code and the one-label reading disagree exactly on those. */
  lemma ReadingsDifferIff(ps: Suffixes, s: string)
    ensures (Public(ps, AsCoded, s) <==> Public(ps, OneLabel, s)) <==> !Swallowed(ps, s)
    ensures Public(ps, OneLabel, s) ==> Public(ps, AsCoded, s)
  {
  }

  lemma FewerCuts(ps: Suffixes, d: string, j: int)
    requires Registrable(ps, AsCoded, d, j)
    ensures Registrable(ps, OneLabel, d, j)
  {
    ReadingsDifferIff(ps, d[j..]);
  }

  /** The second-level domain is that of the one-label reading if and only if that one is the
      whole domain or is not swallowed by a wildcard. */
  lemma SldOneLabelIff(ps: Suffixes, d: string, sld: string, other: string)
    requires '.' in d && IsPart(ps, AsCoded, d, Sld, Some(sld)) && IsPart(ps, OneLabel, d, Sld, Some(other))
    ensures sld == other <==> other == d || !Swallowed(ps, other)
  {
    hide Public, Swallowed, IsPart, Cut;
    forall j | Registrable(ps, AsCoded, d, j)
      ensures Registrable(ps, OneLabel, d, j)
    {
      FewerCuts(ps, d, j);
    }
    if NoCut(ps, OneLabel, d) {
      NoCutNoSld(ps, OneLabel, d, other);
      NoCutNoSld(ps, AsCoded, d, sld);
    } else {
      var i := SldCut(ps, OneLabel, d, other);
      CutSides(d, i);
      ReadingsDifferIff(ps, other);
      if Swallowed(ps, other) {
        SldIsShortest(ps, AsCoded, d, sld);
      } else {
        assert LastCut(ps, AsCoded, d, i);
        SldAtCut(ps, AsCoded, d, i, sld);
      }
    }
  }

  /** A list with the one line `*.ck` and a domain whose second-level domain is missed. */
  lemma SwallowedExample() returns (ps: Suffixes, d: string)
    ensures forall s :: Contains(ps, s) <==> Listed(["*.ck"], s)
    ensures d == "a.b.c.ck" && IsPart(ps, OneLabel, d, Sld, Some("b.c.ck")) && IsPart(ps, AsCoded, d, Sld, Some(d))
  {
    ps, d := Suffixes({"onion"}, {}, [".ck"]), "a.b.c.ck";
    ExampleList(ps);
    ExampleParts(ps, d);
  }

  lemma ExampleList(ps: Suffixes)
    requires ps == Suffixes({"onion"}, {}, [".ck"])
    ensures forall s :: Contains(ps, s) <==> Listed(["*.ck"], s)
  {
    hide Contains, Listed, ReadSoFar;
    ReadNothing();
    ReadLine([], "*.ck", Suffixes({}, {}, []));
    assert [] + ["*.ck"] == ["*.ck"] && "*.ck"[1..] == ".ck" && [] + [".ck"] == [".ck"];
    assert "*.ck"[0] == '*' && "//"[0] == '/';
    assert Wild("*.ck");
    assert {} + {"onion"} == {"onion"};
    forall s
      ensures Contains(ps, s) <==> Listed(["*.ck"], s)
    {
      ReadMeansListed(["*.ck"], Suffixes({}, {}, [".ck"]), s);
    }
  }

  lemma ExampleParts(ps: Suffixes, d: string)
    requires ps == Suffixes({"onion"}, {}, [".ck"]) && d == "a.b.c.ck"
    ensures IsPart(ps, OneLabel, d, Sld, Some("b.c.ck")) && IsPart(ps, AsCoded, d, Sld, Some(d))
  {
    hide Public, Cut, IsPart;
    assert d[2..] == "b.c.ck" && d[4..] == "c.ck";
    ExampleCuts(d);
    ExampleCovered();
    TwoCuts(ps, d);
  }

  lemma TwoCuts(ps: Suffixes, d: string)
    requires |d| > 4 && '.' in d && forall i :: Cut(d, i) <==> i == 2 || i == 4
    requires Public(ps, AsCoded, d[2..]) && Public(ps, AsCoded, d[4..])
    requires Public(ps, OneLabel, d[4..]) && !Public(ps, OneLabel, d[2..])
    ensures IsPart(ps, OneLabel, d, Sld, Some(d[2..])) && IsPart(ps, AsCoded, d, Sld, Some(d))
  {
    hide Public, Cut;
    assert LastCut(ps, OneLabel, d, 2);
    assert NoCut(ps, AsCoded, d);
  }

  lemma ExampleCuts(d: string)
    requires d == "a.b.c.ck"
    ensures forall i :: Cut(d, i) <==> i == 2 || i == 4
    ensures '.' in d
  {
    assert d[1] == '.' && d[3] == '.' && d[5] == '.';
    assert d[2..][1] == '.' && d[4..][1] == '.';
    assert d[6..] == "ck";
  }

  lemma ExampleCovered()
    ensures var ps := Suffixes({"onion"}, {}, [".ck"]);
            && Public(ps, AsCoded, "b.c.ck") && Public(ps, AsCoded, "c.ck")
            && Public(ps, OneLabel, "c.ck") && !Public(ps, OneLabel, "b.c.ck")
  {
    var w := ".ck";
    assert EndsWith("b.c.ck", w) && EndsWith("c.ck", w) && w in [w];
    assert "c.ck"[..1] == "c" && "b.c.ck"[..3] == "b.c";
    assert Covers(w, "c.ck");
    assert "b.c.ck"[..3][1] == '.';
    assert |"b.c.ck"| == 6 && |"onion"| == 5;
  }

  // ---------------------------------------------------------------- what the list format means

  /** A place where a label begins. */
  predicate Start(d: string, i: int) {
    0 <= i <= |d| && (i == 0 || d[i - 1] == '.')
  }

  /** A line that is not an exception matches: plain, or a wildcard with one label. */
  predicate Rule(ps: Suffixes, s: string) {
    s in ps.suffixes || exists w :: w in ps.wildcards && Covers(w, s)
  }

  /** Where the public suffix begins in the format of the Public Suffix List: the longest match,
      and the last label if nothing matches. */
  ghost predicate SuffixAt(ps: Suffixes, d: string, p: int) {
    && Start(d, p) && (Rule(ps, d[p..]) || '.' !in d[p..])
    && forall j :: Start(d, j) && j < p ==> !Rule(ps, d[j..]) && '.' in d[j..]
  }

  predicate ExceptionAt(ps: Suffixes, d: string, i: int) {
    Start(d, i) && d[i..] in ps.exceptions
  }

  /** Where the registrable domain begins in that format: an exception stands for itself and
      prevails, the longest one first; otherwise it is one label more than the public suffix. */
  ghost predicate MeantAt(ps: Suffixes, d: string, i: int) {
    if exists j :: ExceptionAt(ps, d, j) then
      ExceptionAt(ps, d, i) && forall j :: ExceptionAt(ps, d, j) ==> i <= j
    else
      Start(d, i) && exists p :: SuffixAt(ps, d, p) && i < p && forall j :: Start(d, j) && j < p ==> j <= i
  }

  lemma MeantIsUnique(ps: Suffixes, d: string, i: int, j: int)
    requires MeantAt(ps, d, i) && MeantAt(ps, d, j)
    ensures i == j
  {
    hide Rule, Start, ExceptionAt;
    if !(exists k :: ExceptionAt(ps, d, k)) {
      var p :| SuffixAt(ps, d, p) && i < p && forall k :: Start(d, k) && k < p ==> k <= i;
      var q :| SuffixAt(ps, d, q) && j < q && forall k :: Start(d, k) && k < q ==> k <= j;
      assert p == q;
    }
  }

  lemma Least(f: int -> bool, lo: int, hi: int) returns (i: int)
    requires lo <= hi && f(hi)
    ensures lo <= i <= hi && f(i) && forall j :: lo <= j < i ==> !f(j)
    decreases hi - lo
  {
    if f(lo) {
      i := lo;
    } else {
      i := Least(f, lo + 1, hi);
    }
  }

  lemma Greatest(f: int -> bool, lo: int, hi: int) returns (i: int)
    requires lo <= hi && f(lo)
    ensures lo <= i <= hi && f(i) && forall j :: i < j <= hi ==> !f(j)
    decreases hi - lo
  {
    if f(hi) {
      i := hi;
    } else {
      i := Greatest(f, lo, hi - 1);
    }
  }

  lemma LastLabel(d: string) returns (i: int)
    ensures Start(d, i) && '.' !in d[i..]
  {
    if '.' !in d {
      i := 0;
      assert d[0..] == d;
    } else {
      var k :| 0 <= k < |d| && d[k] == '.';
      var f := j => Start(d, j);
      i := Greatest(f, k + 1, |d|);
      forall j | i <= j < |d|
        ensures d[j] != '.'
      {
        assert !f(j + 1);
      }
    }
  }

  lemma SuffixExists(ps: Suffixes, d: string) returns (p: int)
    ensures SuffixAt(ps, d, p)
  {
    hide Rule;
    var last := LastLabel(d);
    var f := j => Start(d, j) && (Rule(ps, d[j..]) || '.' !in d[j..]);
    p := Least(f, 0, last);
    forall j | Start(d, j) && j < p
      ensures !Rule(ps, d[j..]) && '.' in d[j..]
    {
      assert !f(j);
    }
  }

  lemma MeantIsStart(ps: Suffixes, d: string, i: int)
    requires MeantAt(ps, d, i)
    ensures Start(d, i)
  {
  }

  /** There is a registrable domain exactly unless a line matches the whole domain and no
      exception applies. */
  lemma MeantExistsIff(ps: Suffixes, d: string)
    requires '.' in d
    ensures (exists i :: MeantAt(ps, d, i)) <==> (exists j :: ExceptionAt(ps, d, j)) || !Rule(ps, d)
  {
    hide Rule;
    assert d[0..] == d;
    if k :| ExceptionAt(ps, d, k) {
      var f := j => ExceptionAt(ps, d, j);
      var i := Least(f, 0, k);
      assert forall j :: ExceptionAt(ps, d, j) ==> f(j) && 0 <= j;
      assert MeantAt(ps, d, i);
    } else {
      var p := SuffixExists(ps, d);
      forall i | MeantAt(ps, d, i)
        ensures !Rule(ps, d)
      {
        MeantLeavesRoom(ps, d, i);
      }
      if p > 0 {
        var f := j => Start(d, j);
        var i := Greatest(f, 0, p - 1);
        assert forall j :: Start(d, j) ==> f(j);
        assert MeantAt(ps, d, i);
      }
    }
  }

  lemma MeantLeavesRoom(ps: Suffixes, d: string, i: int)
    requires MeantAt(ps, d, i) && !exists j :: ExceptionAt(ps, d, j)
    ensures !Rule(ps, d)
  {
    var q :| SuffixAt(ps, d, q) && i < q && forall j :: Start(d, j) && j < q ==> j <= i;
    assert Start(d, 0) && d[0..] == d;
  }

  /** When the scan finds the registrable domain of the format, whatever the list: exactly if
      everything shorter is taken for public, down to two labels, and the domain itself is not,
      or is all there is. */
  lemma SldAsMeantIff(ps: Suffixes, d: string, sld: string, i: int)
    requires '.' in d && IsPart(ps, AsCoded, d, Sld, Some(sld)) && MeantAt(ps, d, i)
    ensures sld == d[i..] <==>
            && (forall j :: i < j && Cut(d, j) ==> Contains(ps, d[j..]))
            && (i == 0 || (Cut(d, i) && !Contains(ps, d[i..])))
  {
    MeantIsStart(ps, d, i);
    hide Contains, IsPart, Cut, MeantAt;
    assert d[0..] == d;
    if NoCut(ps, AsCoded, d) {
      NoCutNoSld(ps, AsCoded, d, sld);
      assert forall j :: Cut(d, j) ==> !Registrable(ps, AsCoded, d, j);
      assert i > 0 ==> |d[i..]| < |d|;
    } else {
      var c := SldCut(ps, AsCoded, d, sld);
      CutBounds(d, c);
      assert |d[i..]| == |d| - i && |d[c..]| == |d| - c;
      assert Registrable(ps, AsCoded, d, c);
      assert forall j :: Cut(d, j) && !Contains(ps, d[j..]) ==> Registrable(ps, AsCoded, d, j);
    }
  }

  lemma CutBounds(d: string, i: int)
    requires Cut(d, i)
    ensures 0 < i <= |d|
  {
  }

  /** Of the two ways to fail, taking the meant domain for public is a matter of wildcards: it
      happens exactly if a wildcard swallows it, or if it is an exception that is also listed. */
  lemma MeantTakenForPublicIff(ps: Suffixes, d: string, i: int)
    requires MeantAt(ps, d, i)
    ensures Contains(ps, d[i..]) <==>
            if ExceptionAt(ps, d, i) then d[i..] in ps.suffixes else Swallowed(ps, d[i..])
  {
    if !ExceptionAt(ps, d, i) {
      var p :| SuffixAt(ps, d, p) && i < p && forall j :: Start(d, j) && j < p ==> j <= i;
      assert !Rule(ps, d[i..]);
    }
  }

  /** A list in which a longer line hides behind a suffix that is not listed: the scan stops at
      `b.com` under both readings of wildcards, while the list means the whole domain. */
  lemma GapExample() returns (ps: Suffixes, d: string)
    ensures forall s :: Contains(ps, s) <==> Listed(["com", "a.b.com"], s)
    ensures d == "x.a.b.com" && MeantAt(ps, d, 0)
    ensures IsPart(ps, OneLabel, d, Sld, Some("b.com")) && IsPart(ps, AsCoded, d, Sld, Some("b.com"))
  {
    ps, d := Suffixes({"com", "a.b.com", "onion"}, {}, []), "x.a.b.com";
    GapList(ps);
    GapParts(ps, d);
  }

  lemma GapList(ps: Suffixes)
    requires ps == Suffixes({"com", "a.b.com", "onion"}, {}, [])
    ensures forall s :: Contains(ps, s) <==> Listed(["com", "a.b.com"], s)
  {
    hide Contains, Listed, ReadSoFar;
    var one, two := Suffixes({"com"}, {}, []), Suffixes({"com", "a.b.com"}, {}, []);
    ReadNothing();
    assert "com"[0] == 'c' && "a.b.com"[0] == 'a' && "//"[0] == '/';
    ReadLine([], "com", Suffixes({}, {}, []));
    assert [] + ["com"] == ["com"] && {} + {"com"} == {"com"};
    ReadLine(["com"], "a.b.com", one);
    assert ["com"] + ["a.b.com"] == ["com", "a.b.com"] && {"com"} + {"a.b.com"} == {"com", "a.b.com"};
    assert two.suffixes + {"onion"} == ps.suffixes;
    forall s
      ensures Contains(ps, s) <==> Listed(["com", "a.b.com"], s)
    {
      ReadMeansListed(["com", "a.b.com"], two, s);
    }
  }

  lemma GapParts(ps: Suffixes, d: string)
    requires ps == Suffixes({"com", "a.b.com", "onion"}, {}, []) && d == "x.a.b.com"
    ensures MeantAt(ps, d, 0)
    ensures IsPart(ps, OneLabel, d, Sld, Some("b.com")) && IsPart(ps, AsCoded, d, Sld, Some("b.com"))
  {
    hide Rule, Public, Start, Cut, MeantAt, IsPart;
    assert d[2..] == "a.b.com" && d[4..] == "b.com";
    GapStarts(d);
    GapFacts(ps, d);
    GapMeant(ps, d);
    GapCut(ps, d, AsCoded);
    GapCut(ps, d, OneLabel);
  }

  lemma GapFacts(ps: Suffixes, d: string)
    requires ps == Suffixes({"com", "a.b.com", "onion"}, {}, []) && d == "x.a.b.com"
    ensures Rule(ps, "a.b.com") && !Rule(ps, d) && '.' in d
    ensures !Public(ps, AsCoded, "b.com") && !Public(ps, OneLabel, "b.com")
  {
    assert |d| == 9 && |"a.b.com"| == 7 && |"b.com"| == 5 && |"onion"| == 5 && "b.com"[0] != "onion"[0] && d[1] == '.';
  }

  lemma GapMeant(ps: Suffixes, d: string)
    requires ps.exceptions == {} && |d| > 2 && '.' in d && Start(d, 0) && Start(d, 2) && !Start(d, 1)
    requires Rule(ps, d[2..]) && !Rule(ps, d)
    ensures MeantAt(ps, d, 0)
  {
    hide Rule;
    assert d[0..] == d;
    assert SuffixAt(ps, d, 2);
  }

  lemma GapCut(ps: Suffixes, d: string, how: Reading)
    requires |d| > 4 && '.' in d && (forall i :: Cut(d, i) <==> i == 2 || i == 4) && !Public(ps, how, d[4..])
    ensures IsPart(ps, how, d, Sld, Some(d[4..]))
  {
    hide Public, Cut;
    assert LastCut(ps, how, d, 4);
  }

  lemma GapStarts(d: string)
    requires d == "x.a.b.com"
    ensures forall i :: Start(d, i) <==> i == 0 || i == 2 || i == 4 || i == 6
    ensures forall i :: Cut(d, i) <==> i == 2 || i == 4
  {
    assert d[1] == '.' && d[3] == '.' && d[5] == '.';
    assert d[2..][1] == '.' && d[4..][1] == '.';
    assert d[6..] == "com";
  }
}
