/** Directory policies compiled into kernel tables of named patterns, rules and
    trusted-process rows, reloaded only on change
    (crates/pattern/src/pattern_rules_mgr.rs).

    A table is a list of rows. The source joins rows into text and compares the text; for
    fields free of its separators that is comparing the rows (PatternText, PatternRuns). */
module PatternRules {
  import opened Common
  import opened Decimals

  // ---------------------------------------------------------------- rows

  /** Pattern names: `self_1`, `trueDir_0`, `exiportInfo_0`, `ProtectDir_0`,
      `protectExcludeDir_0_1`, `protectIncFileExe_0_1`, `protectExcFileExe_0_1`. */
  datatype Name =
    | SelfName(i: nat)
    | TrueDir(i: nat)
    | Exiport(i: nat)
    | ProtectDir(i: nat)
    | ExcludeDir(i: nat, j: nat)
    | IncFileExe(i: nat, j: nat)
    | ExcFileExe(i: nat, j: nat)

  datatype Attr = NotExtend | Depth(n: nat) | WholeLength | CaseOffset | FromEnd(n: nat)

  datatype Pattern = Pattern(name: Name, key: string, attrs: seq<Attr>)

  /** A rule names the patterns that must match; `tpnc` refers to trusted-process rows. */
  datatype Rule = Rule(patterns: seq<Name>, kind: nat, action: Option<nat>, ruleIdx: Option<nat>, protectRw: Option<nat>, tpnc: Option<nat>)

  /** A trusted process: hash, number and the tag of the list it comes from. */
  datatype ProcRow = ProcRow(hash: string, number: nat, tag: nat)

  /** Rows of one family, as they are generated together. */
  datatype Family = Family(pats: seq<Pattern>, rules: seq<Rule>)

  const NO_FAMILY: Family := Family([], [])

  datatype Kernel = Kernel(pats: seq<Pattern>, rules: seq<Rule>, procs: seq<ProcRow>)

  // ---------------------------------------------------------------- names as text

  function Text(n: Name): string {
    match n
    case SelfName(i) => "self_" + Decimal(i)
    case TrueDir(i) => "trueDir_" + Decimal(i)
    case Exiport(i) => "exiportInfo_" + Decimal(i)
    case ProtectDir(i) => "ProtectDir_" + Decimal(i)
    case ExcludeDir(i, j) => "protectExcludeDir_" + (Decimal(i) + "_" + Decimal(j))
    case IncFileExe(i, j) => "protectIncFileExe_" + (Decimal(i) + "_" + Decimal(j))
    case ExcFileExe(i, j) => "protectExcFileExe_" + (Decimal(i) + "_" + Decimal(j))
  }

  /** A text is cut at its only underscore in one way. */
  lemma CutInjective(a: string, b: string, a': string, b': string)
    requires '_' !in a && '_' !in a' && a + "_" + b == a' + "_" + b'
    ensures a == a' && b == b'
  {
    var s := a + "_" + b;
    assert s[|a|] == '_' && s[|a'|] == '_';
    assert |a| == |a'| by {
      assert forall i :: 0 <= i < |a| ==> s[i] == a[i];
      assert forall i :: 0 <= i < |a'| ==> s[i] == a'[i];
    }
    assert a == s[..|a|] && a' == s[..|a'|] && b == s[|a| + 1..] && b' == s[|a'| + 1..];
  }

  /** Two numbers joined by an underscore can be told apart. */
  lemma PairInjective(i: nat, j: nat, i': nat, j': nat)
    requires Decimal(i) + "_" + Decimal(j) == Decimal(i') + "_" + Decimal(j')
    ensures i == i' && j == j'
  {
    hide Decimal;
    CutInjective(Decimal(i), Decimal(j), Decimal(i'), Decimal(j'));
    DecimalInjective(i, i');
    DecimalInjective(j, j');
  }

  lemma SamePrefix(p: string, a: string, b: string)
    requires p + a == p + b
    ensures a == b
  {
    assert a == (p + a)[|p|..] && b == (p + b)[|p|..];
  }

  /** The letters that tell the families apart. */
  lemma FamilyLetters(n: Name)
    ensures |Text(n)| > 0
    ensures n.SelfName? ==> Text(n)[0] == 's'
    ensures n.TrueDir? ==> Text(n)[0] == 't'
    ensures n.Exiport? ==> Text(n)[0] == 'e'
    ensures n.ProtectDir? ==> Text(n)[0] == 'P'
    ensures n.ExcludeDir? || n.IncFileExe? || n.ExcFileExe? ==> |Text(n)| > 17 && Text(n)[0] == 'p'
    ensures n.ExcludeDir? ==> Text(n)[7] == 'E' && Text(n)[10] == 'l'
    ensures n.IncFileExe? ==> Text(n)[7] == 'I'
    ensures n.ExcFileExe? ==> Text(n)[7] == 'E' && Text(n)[10] == 'F'
  {
  }

  /** Different names have different text: a pattern table keyed by text has no clashes
      that a table keyed by names would not have. */
  lemma TextInjective(m: Name, n: Name)
    requires Text(m) == Text(n)
    ensures m == n
  {
    FamilyLetters(m);
    FamilyLetters(n);
    match m
    case SelfName(i) =>
      SamePrefix("self_", Decimal(i), Decimal(n.i));
      DecimalInjective(i, n.i);
    case TrueDir(i) =>
      SamePrefix("trueDir_", Decimal(i), Decimal(n.i));
      DecimalInjective(i, n.i);
    case Exiport(i) =>
      SamePrefix("exiportInfo_", Decimal(i), Decimal(n.i));
      DecimalInjective(i, n.i);
    case ProtectDir(i) =>
      SamePrefix("ProtectDir_", Decimal(i), Decimal(n.i));
      DecimalInjective(i, n.i);
    case ExcludeDir(i, j) =>
      assert Text(n)[10] == 'l' && n.ExcludeDir?;
      SamePrefix("protectExcludeDir_", Decimal(i) + "_" + Decimal(j), Decimal(n.i) + "_" + Decimal(n.j));
      PairInjective(i, j, n.i, n.j);
    case IncFileExe(i, j) =>
      SamePrefix("protectIncFileExe_", Decimal(i) + "_" + Decimal(j), Decimal(n.i) + "_" + Decimal(n.j));
      PairInjective(i, j, n.i, n.j);
    case ExcFileExe(i, j) =>
      SamePrefix("protectExcFileExe_", Decimal(i) + "_" + Decimal(j), Decimal(n.i) + "_" + Decimal(n.j));
      PairInjective(i, j, n.i, n.j);
  }

  // ---------------------------------------------------------------- policies and what they compile to

  datatype TrustDir = TrustDir(dir: string, typ: nat, isExtend: nat)

  /** `hashes` are the keys of the process map in the order in which it is iterated. */
  datatype Export = Export(fileType: string, typ: nat, hashes: seq<string>)

  datatype Protect = Protect(dir: string, protectRw: nat, typ: nat, isExtend: nat, includeFile: string, fileExt: string, isWhite: string, whiteHash: string)

  /** At most fifty policies of a list are used. */
  function Taken<T>(ds: seq<T>): seq<T> {
    if |ds| > 50 then ds[..50] else ds
  }

  function Split(s: string, sep: char): (r: seq<string>)
    ensures |r| >= 1
  {
    if s == [] then [""]
    else
      var rest := Split(s[1..], sep);
      if s[0] == sep then [""] + rest else [[s[0]] + rest[0]] + rest[1..]
  }

  function Join(parts: seq<string>, sep: char): string
    requires parts != []
  {
    if |parts| == 1 then parts[0] else parts[0] + [sep] + Join(parts[1..], sep)
  }

  /** Splitting loses nothing and leaves no separator behind. */
  lemma {:induction false} SplitThenJoin(s: string, sep: char)
    ensures Join(Split(s, sep), sep) == s
    ensures forall i :: 0 <= i < |Split(s, sep)| ==> sep !in Split(s, sep)[i]
  {
    if s != [] {
      SplitThenJoin(s[1..], sep);
      var rest, r := Split(s[1..], sep), Split(s, sep);
      if s[0] == sep {
        assert r[1..] == rest;
      } else {
        assert r[1..] == rest[1..];
      }
    }
  }

  const UNITS: string := "/etc/systemd/system/" + "multi-user.target.wants/"

  const SELF_KEYS: seq<string> := [
    "/var/lib/dpkg/info/osec.", "/opt/osec", "/opt/osec/",
    UNITS + "osec.", UNITS + "agent_manager."
  ]

  function SelfAttrs(i: nat): seq<Attr> {
    if i == 1 then [WholeLength, CaseOffset] else if i == 2 then [CaseOffset] else []
  }

  /** The fixed self-protection rows. */
  function SelfFamily(): Family {
    Family(seq(|SELF_KEYS|, i requires 0 <= i < |SELF_KEYS| => Pattern(SelfName(i + 1), SELF_KEYS[i], SelfAttrs(i))),
           seq(|SELF_KEYS|, i requires 0 <= i < |SELF_KEYS| => Rule([SelfName(i + 1)], 3, None, None, None, None)))
  }

  function TrustStep(f: Family, i: nat, d: TrustDir): Family {
    Family(
      f.pats + [Pattern(TrueDir(i), d.dir,
                        (if d.isExtend == 0 then [NotExtend] else []) +
                        (if d.typ == 1 then [Depth(|d.dir|)] else [WholeLength]) + [CaseOffset])],
      f.rules + [Rule([TrueDir(i)], 0, None, None, None, None)])
  }

  function TrustUpTo(ds: seq<TrustDir>, n: nat): Family
    requires n <= |ds|
  {
    if n == 0 then NO_FAMILY else TrustStep(TrustUpTo(ds, n - 1), n - 1, ds[n - 1])
  }

  datatype ExportRows = ExportRows(fam: Family, procs: seq<ProcRow>, number: nat)

  function Procs(hashes: seq<string>, number: nat, tag: nat): (rows: seq<ProcRow>)
    ensures |rows| == |hashes| && forall i :: 0 <= i < |rows| ==> rows[i] == ProcRow(hashes[i], number, tag)
  {
    seq(|hashes|, i requires 0 <= i < |hashes| => ProcRow(hashes[i], number, tag))
  }

  function ExportStep(r: ExportRows, i: nat, e: Export): ExportRows {
    var trusted := e.hashes != [];
    var number := if trusted then r.number + 1 else r.number;
    ExportRows(
      Family(
        r.fam.pats + [if e.typ == 1 then Pattern(Exiport(i), "." + e.fileType, [FromEnd(|e.fileType| + 1)])
                      else Pattern(Exiport(i), e.fileType, [CaseOffset, Depth(|e.fileType|)])],
        r.fam.rules + [Rule([Exiport(i)], 1, if e.typ == 1 then Some(3) else None, None, None, if trusted then Some(number) else None)]),
      r.procs + (if trusted then Procs(e.hashes, number, 99) else []),
      number)
  }

  function ExportUpTo(es: seq<Export>, n: nat): ExportRows
    requires n <= |es|
  {
    if n == 0 then ExportRows(NO_FAMILY, [], 0) else ExportStep(ExportUpTo(es, n - 1), n - 1, es[n - 1])
  }

  /** The rows of the protected directories: the directories, their white paths, the
      suffixes to include and the suffixes to exclude. */
  datatype ProtectRows = ProtectRows(dirs: Family, white: Family, inc: Family, exc: Family, procs: seq<ProcRow>, number: nat)

  const NO_PROTECT: ProtectRows := ProtectRows(NO_FAMILY, NO_FAMILY, NO_FAMILY, NO_FAMILY, [], 0)

  function Append(f: Family, pats: seq<Pattern>, rules: seq<Rule>): Family {
    Family(f.pats + pats, f.rules + rules)
  }

  function DirPattern(i: nat, d: Protect): Pattern {
    Pattern(ProtectDir(i), d.dir,
            if d.typ == 1 then (if d.isExtend == 0 then [NotExtend] else []) + [Depth(|d.dir|), CaseOffset]
            else [CaseOffset, WholeLength])
  }

  function DirRules(i: nat, d: Protect, tpnc: Option<nat>): seq<Rule> {
    if d.includeFile == "" then [Rule([ProtectDir(i)], 2, None, Some(i), Some(d.protectRw), tpnc)] else []
  }

  /** The parts of a list field; an empty field has none. */
  function Parts(s: string, sep: char): seq<string> {
    if s == "" then [] else Split(s, sep)
  }

  function WhitePats(i: nat, parts: seq<string>): (r: seq<Pattern>)
    ensures |r| == |parts| && forall j :: 0 <= j < |r| ==> r[j].name == ExcludeDir(i, j)
  {
    seq(|parts|, j requires 0 <= j < |parts| => Pattern(ExcludeDir(i, j), parts[j], []))
  }

  function WhiteRules(i: nat, parts: seq<string>): (r: seq<Rule>)
    ensures |r| == |parts|
  {
    seq(|parts|, j requires 0 <= j < |parts| => Rule([ExcludeDir(i, j)], 2, Some(1), Some(i), None, None))
  }

  function IncPats(i: nat, parts: seq<string>): (r: seq<Pattern>)
    ensures |r| == |parts| && forall j :: 0 <= j < |r| ==> r[j].name == IncFileExe(i, j)
  {
    seq(|parts|, j requires 0 <= j < |parts| => Pattern(IncFileExe(i, j), "." + parts[j], [FromEnd(|parts[j]| + 1)]))
  }

  function IncRules(i: nat, d: Protect, parts: seq<string>, tpnc: Option<nat>): (r: seq<Rule>)
    ensures |r| == |parts|
  {
    seq(|parts|, j requires 0 <= j < |parts| =>
      Rule([ProtectDir(i), IncFileExe(i, j)], 2, Some(3), Some(i), Some(d.protectRw), tpnc))
  }

  function ExcPats(i: nat, parts: seq<string>): (r: seq<Pattern>)
    ensures |r| == |parts| && forall j :: 0 <= j < |r| ==> r[j].name == ExcFileExe(i, j)
  {
    seq(|parts|, j requires 0 <= j < |parts| => Pattern(ExcFileExe(i, j), "." + parts[j], [FromEnd(|parts[j]| + 1)]))
  }

  function ExcRules(i: nat, parts: seq<string>): (r: seq<Rule>)
    ensures |r| == |parts|
  {
    seq(|parts|, j requires 0 <= j < |parts| => Rule([ProtectDir(i), ExcFileExe(i, j)], 2, Some(2), Some(i), None, None))
  }

  function ProtectStep(r: ProtectRows, i: nat, d: Protect): ProtectRows {
    var trusted := d.whiteHash != "";
    var number := if trusted then r.number + 1 else r.number;
    var tpnc := if trusted then Some(number) else None;
    var white, inc := Parts(d.isWhite, '|'), Parts(d.includeFile, '|');
    var exc := if d.includeFile == "" then Parts(d.fileExt, '|') else [];
    ProtectRows(
      Append(r.dirs, [DirPattern(i, d)], DirRules(i, d, tpnc)),
      Append(r.white, WhitePats(i, white), WhiteRules(i, white)),
      Append(r.inc, IncPats(i, inc), IncRules(i, d, inc, tpnc)),
      Append(r.exc, ExcPats(i, exc), ExcRules(i, exc)),
      r.procs + (if trusted then Procs(Split(d.whiteHash, ','), number, 88) else []),
      number)
  }

  function ProtectUpTo(ds: seq<Protect>, n: nat): ProtectRows
    requires n <= |ds|
  {
    if n == 0 then NO_PROTECT else ProtectStep(ProtectUpTo(ds, n - 1), n - 1, ds[n - 1])
  }

  // ---------------------------------------------------------------- consistency of tables

  function Names(pats: seq<Pattern>): set<Name> {
    set p | p in pats :: p.name
  }

  ghost predicate Distinct(pats: seq<Pattern>) {
    forall a, b :: 0 <= a < b < |pats| ==> pats[a].name != pats[b].name
  }

  ghost predicate Covered(rules: seq<Rule>, names: set<Name>) {
    forall r, n :: r in rules && n in r.patterns ==> n in names
  }

  ghost predicate Trusted(rules: seq<Rule>, procs: seq<ProcRow>) {
    forall r :: r in rules && r.tpnc.Some? ==>
      exists q :: q in procs && q.number == r.tpnc.value && q.tag == (if r.kind == 1 then 99 else 88)
  }

  /** Pattern names are unique, every pattern a rule names is present, and every
      trusted-process number of a rule has rows of the right list. */
  ghost predicate Consistent(k: Kernel) {
    Distinct(k.pats) && Covered(k.rules, Names(k.pats)) && Trusted(k.rules, k.procs)
  }

  function Kind(n: Name): nat {
    match n
    case SelfName(_) => 0
    case TrueDir(_) => 1
    case Exiport(_) => 2
    case ProtectDir(_) => 3
    case ExcludeDir(_, _) => 4
    case IncFileExe(_, _) => 5
    case ExcFileExe(_, _) => 6
  }

  ghost predicate OfKind(pats: seq<Pattern>, k: nat) {
    forall p :: p in pats ==> Kind(p.name) == k
  }

  /** A family whose rules rely on its own patterns and on some others. */
  ghost predicate FamilyOk(f: Family, k: nat, others: set<Name>, procs: seq<ProcRow>) {
    && Distinct(f.pats) && OfKind(f.pats, k)
    && Covered(f.rules, Names(f.pats) + others)
    && Trusted(f.rules, procs)
    && (f.pats == [] ==> f.rules == [])
  }

  lemma NamesConcat(a: seq<Pattern>, b: seq<Pattern>)
    ensures Names(a + b) == Names(a) + Names(b)
  {
  }

  ghost predicate Apart(a: seq<Pattern>, b: seq<Pattern>) {
    Names(a) !! Names(b)
  }

  lemma DistinctConcat(a: seq<Pattern>, b: seq<Pattern>)
    requires Distinct(a) && Distinct(b) && Apart(a, b)
    ensures Distinct(a + b)
  {
    forall i, j | 0 <= i < j < |a + b|
      ensures (a + b)[i].name != (a + b)[j].name
    {
      if i < |a| <= j {
        assert a[i].name in Names(a) && b[j - |a|].name in Names(b);
      }
    }
  }

  lemma CoveredConcat(x: seq<Rule>, y: seq<Rule>, names: set<Name>)
    requires Covered(x, names) && Covered(y, names)
    ensures Covered(x + y, names)
  {
  }

  lemma CoveredMore(x: seq<Rule>, names: set<Name>, names': set<Name>)
    requires Covered(x, names) && names <= names'
    ensures Covered(x, names')
  {
  }

  lemma TrustedConcat(x: seq<Rule>, y: seq<Rule>, procs: seq<ProcRow>)
    requires Trusted(x, procs) && Trusted(y, procs)
    ensures Trusted(x + y, procs)
  {
  }

  lemma TrustedMore(x: seq<Rule>, procs: seq<ProcRow>, procs': seq<ProcRow>)
    requires Trusted(x, procs) && forall q :: q in procs ==> q in procs'
    ensures Trusted(x, procs')
  {
  }

  /** All names of a family carry an index below n. */
  ghost predicate Below(pats: seq<Pattern>, n: nat) {
    forall p :: p in pats ==> p.name.i < n
  }

  ghost predicate At(pats: seq<Pattern>, n: nat) {
    forall p :: p in pats ==> p.name.i == n
  }

  /** The rows of the n-th policy join a family that holds the rows of the earlier ones. */
  lemma AppendOk(f: Family, k: nat, others: set<Name>, procs: seq<ProcRow>, n: nat,
                 pats: seq<Pattern>, rules: seq<Rule>, others': set<Name>, procs': seq<ProcRow>)
    requires FamilyOk(f, k, others, procs) && Below(f.pats, n)
    requires FamilyOk(Family(pats, rules), k, others', procs') && At(pats, n)
    requires others <= others' && forall q :: q in procs ==> q in procs'
    ensures FamilyOk(Append(f, pats, rules), k, others', procs') && Below(Append(f, pats, rules).pats, n + 1)
  {
    hide Distinct, Covered, Trusted;
    assert Apart(f.pats, pats);
    DistinctConcat(f.pats, pats);
    NamesConcat(f.pats, pats);
    CoveredMore(f.rules, Names(f.pats) + others, Names(f.pats + pats) + others');
    CoveredMore(rules, Names(pats) + others', Names(f.pats + pats) + others');
    CoveredConcat(f.rules, rules, Names(f.pats + pats) + others');
    TrustedMore(f.rules, procs, procs');
    TrustedConcat(f.rules, rules, procs');
  }

  lemma {:induction false} TrustOk(ds: seq<TrustDir>, n: nat)
    requires n <= |ds|
    ensures FamilyOk(TrustUpTo(ds, n), 1, {}, []) && Below(TrustUpTo(ds, n).pats, n)
  {
    if n > 0 {
      TrustOk(ds, n - 1);
      var f, f' := TrustUpTo(ds, n - 1), TrustUpTo(ds, n);
      var pat, rule := f'.pats[|f.pats|], f'.rules[|f.rules|];
      SingleOk(pat, rule, 1, []);
      AppendOk(f, 1, {}, [], n - 1, [pat], [rule], {}, []);
    }
  }

  lemma NoFamilyOk(k: nat)
    ensures FamilyOk(NO_FAMILY, k, {}, []) && Below(NO_FAMILY.pats, 0)
  {
  }

  /** One pattern with one rule about it. */
  lemma SingleOk(pat: Pattern, rule: Rule, k: nat, procs: seq<ProcRow>)
    requires Kind(pat.name) == k && rule.patterns == [pat.name]
    requires rule.tpnc.Some? ==> exists q :: q in procs && q.number == rule.tpnc.value && q.tag == (if rule.kind == 1 then 99 else 88)
    ensures FamilyOk(Family([pat], [rule]), k, {}, procs) && At([pat], pat.name.i)
  {
    assert pat in [pat];
  }

  lemma {:induction false} ExportOk(es: seq<Export>, n: nat)
    requires n <= |es|
    ensures var r := ExportUpTo(es, n); FamilyOk(r.fam, 2, {}, r.procs) && Below(r.fam.pats, n)
  {
    hide FamilyOk, Below, ExportStep;
    NoFamilyOk(2);
    if n > 0 {
      ExportOk(es, n - 1);
      ExportStepOk(ExportUpTo(es, n - 1), n - 1, es[n - 1]);
    }
  }

  lemma ExportStepOk(r: ExportRows, n: nat, e: Export)
    requires FamilyOk(r.fam, 2, {}, r.procs) && Below(r.fam.pats, n)
    ensures var r' := ExportStep(r, n, e); FamilyOk(r'.fam, 2, {}, r'.procs) && Below(r'.fam.pats, n + 1)
  {
    hide FamilyOk, Below, At, Split;
    var r' := ExportStep(r, n, e);
    var pat, rule := r'.fam.pats[|r.fam.pats|], r'.fam.rules[|r.fam.rules|];
    if e.hashes != [] {
      var rows := Procs(e.hashes, r'.number, 99);
      assert rows[0] in rows && rows[0] in r'.procs;
    }
    SingleOk(pat, rule, 2, r'.procs);
    AppendOk(r.fam, 2, {}, r.procs, n, [pat], [rule], {}, r'.procs);
    assert r'.fam == Append(r.fam, [pat], [rule]);
  }

  ghost predicate ProtectOk(r: ProtectRows, n: nat) {
    && FamilyOk(r.dirs, 3, {}, r.procs) && Below(r.dirs.pats, n)
    && FamilyOk(r.white, 4, {}, r.procs) && Below(r.white.pats, n)
    && FamilyOk(r.inc, 5, Names(r.dirs.pats), r.procs) && Below(r.inc.pats, n)
    && FamilyOk(r.exc, 6, Names(r.dirs.pats), r.procs) && Below(r.exc.pats, n)
  }

  lemma DirRowsOk(i: nat, d: Protect, tpnc: Option<nat>, procs: seq<ProcRow>)
    requires tpnc.Some? ==> exists q :: q in procs && q.number == tpnc.value && q.tag == 88
    ensures FamilyOk(Family([DirPattern(i, d)], DirRules(i, d, tpnc)), 3, {}, procs) && At([DirPattern(i, d)], i)
  {
    assert DirPattern(i, d) in [DirPattern(i, d)];
  }

  lemma WhiteRowsOk(i: nat, parts: seq<string>, procs: seq<ProcRow>)
    ensures FamilyOk(Family(WhitePats(i, parts), WhiteRules(i, parts)), 4, {}, procs) && At(WhitePats(i, parts), i)
  {
    var pats, rules := WhitePats(i, parts), WhiteRules(i, parts);
    forall r, n | r in rules && n in r.patterns
      ensures n in Names(pats)
    {
      var j :| 0 <= j < |rules| && rules[j] == r;
      assert pats[j] in pats;
    }
  }

  lemma IncRowsOk(i: nat, d: Protect, parts: seq<string>, tpnc: Option<nat>, dirs: set<Name>, procs: seq<ProcRow>)
    requires ProtectDir(i) in dirs
    requires tpnc.Some? ==> exists q :: q in procs && q.number == tpnc.value && q.tag == 88
    ensures FamilyOk(Family(IncPats(i, parts), IncRules(i, d, parts, tpnc)), 5, dirs, procs) && At(IncPats(i, parts), i)
  {
    var pats, rules := IncPats(i, parts), IncRules(i, d, parts, tpnc);
    forall r, n | r in rules && n in r.patterns
      ensures n in Names(pats) + dirs
    {
      var j :| 0 <= j < |rules| && rules[j] == r;
      assert pats[j] in pats;
    }
  }

  lemma ExcRowsOk(i: nat, parts: seq<string>, dirs: set<Name>, procs: seq<ProcRow>)
    requires ProtectDir(i) in dirs
    ensures FamilyOk(Family(ExcPats(i, parts), ExcRules(i, parts)), 6, dirs, procs) && At(ExcPats(i, parts), i)
  {
    var pats, rules := ExcPats(i, parts), ExcRules(i, parts);
    forall r, n | r in rules && n in r.patterns
      ensures n in Names(pats) + dirs
    {
      var j :| 0 <= j < |rules| && rules[j] == r;
      assert pats[j] in pats;
    }
  }

  lemma ProtectStepOk(r: ProtectRows, n: nat, d: Protect)
    requires ProtectOk(r, n)
    ensures ProtectOk(ProtectStep(r, n, d), n + 1)
  {
    hide FamilyOk, Below, At, Split, DirPattern, DirRules, WhitePats, WhiteRules, IncPats, IncRules, ExcPats, ExcRules, Procs, Parts;
    var r' := ProtectStep(r, n, d);
    var tpnc := if d.whiteHash != "" then Some(r'.number) else None;
    if tpnc.Some? {
      var rows := Procs(Split(d.whiteHash, ','), r'.number, 88);
      assert rows[0] in rows && rows[0] in r'.procs;
    }
    var white, inc := Parts(d.isWhite, '|'), Parts(d.includeFile, '|');
    var exc := if d.includeFile == "" then Parts(d.fileExt, '|') else [];
    NamesConcat(r.dirs.pats, [DirPattern(n, d)]);
    assert DirPattern(n, d) in r'.dirs.pats by { assert r'.dirs.pats[|r.dirs.pats|] == DirPattern(n, d); }
    DirName(n, d);
    assert forall q :: q in r.procs ==> q in r'.procs;
    DirRowsOk(n, d, tpnc, r'.procs);
    AppendOk(r.dirs, 3, {}, r.procs, n, [DirPattern(n, d)], DirRules(n, d, tpnc), {}, r'.procs);
    WhiteRowsOk(n, white, r'.procs);
    AppendOk(r.white, 4, {}, r.procs, n, WhitePats(n, white), WhiteRules(n, white), {}, r'.procs);
    var dirs := Names(r'.dirs.pats);
    IncRowsOk(n, d, inc, tpnc, dirs, r'.procs);
    AppendOk(r.inc, 5, Names(r.dirs.pats), r.procs, n, IncPats(n, inc), IncRules(n, d, inc, tpnc), dirs, r'.procs);
    ExcRowsOk(n, exc, dirs, r'.procs);
    AppendOk(r.exc, 6, Names(r.dirs.pats), r.procs, n, ExcPats(n, exc), ExcRules(n, exc), dirs, r'.procs);
  }

  lemma DirName(n: nat, d: Protect)
    ensures DirPattern(n, d).name == ProtectDir(n)
  {
  }

  lemma NoProtectOk()
    ensures ProtectOk(NO_PROTECT, 0)
  {
  }

  /** Whatever the policies, what they compile to is well formed. */
  lemma {:induction false} ProtectUpToOk(ds: seq<Protect>, n: nat)
    requires n <= |ds|
    ensures ProtectOk(ProtectUpTo(ds, n), n)
  {
    hide ProtectOk, ProtectStep;
    NoProtectOk();
    if n > 0 {
      ProtectUpToOk(ds, n - 1);
      ProtectStepOk(ProtectUpTo(ds, n - 1), n - 1, ds[n - 1]);
    }
  }

  lemma SelfOk()
    ensures FamilyOk(SelfFamily(), 0, {}, [])
  {
    var f := SelfFamily();
    forall r, n | r in f.rules && n in r.patterns
      ensures n in Names(f.pats)
    {
      var j :| 0 <= j < |f.rules| && f.rules[j] == r;
      assert f.pats[j] in f.pats;
    }
  }

  // ---------------------------------------------------------------- loading

  /** Everything the manager currently has. */
  datatype Rows = Rows(self: Family, trust: Family, exiport: Family, protect: Family, white: Family, inc: Family, exc: Family,
                       exiportProcs: seq<ProcRow>, protectProcs: seq<ProcRow>)

  ghost predicate RowsOk(r: Rows) {
    && FamilyOk(r.self, 0, {}, [])
    && FamilyOk(r.trust, 1, {}, [])
    && FamilyOk(r.exiport, 2, {}, r.exiportProcs)
    && FamilyOk(r.protect, 3, {}, r.protectProcs)
    && FamilyOk(r.white, 4, {}, r.protectProcs)
    && FamilyOk(r.inc, 5, Names(r.protect.pats), r.protectProcs)
    && FamilyOk(r.exc, 6, Names(r.protect.pats), r.protectProcs)
  }

  function AllPats(r: Rows): seq<Pattern> {
    r.self.pats + r.trust.pats + r.exiport.pats + r.protect.pats + r.white.pats + r.inc.pats + r.exc.pats
  }

  function AllRules(r: Rows): seq<Rule> {
    r.self.rules + r.trust.rules + r.exiport.rules + r.protect.rules + r.white.rules + r.inc.rules + r.exc.rules
  }

  /** The tables that loading these rows into cleared tables produces. */
  function Loaded(r: Rows): Kernel {
    Kernel(AllPats(r), AllRules(r), r.protectProcs + r.exiportProcs)
  }

  lemma KindsApart(a: seq<Pattern>, b: seq<Pattern>, k: nat)
    requires OfKind(b, k) && forall p :: p in a ==> Kind(p.name) < k
    ensures Apart(a, b) && forall p :: p in a + b ==> Kind(p.name) < k + 1
  {
  }

  /** Families joined in the order of their kinds have no name twice. */
  lemma AllPatsDistinct(r: Rows)
    requires RowsOk(r)
    ensures Distinct(AllPats(r))
  {
    hide Distinct, Apart, Covered, Trusted, Names;
    var a1 := r.self.pats + r.trust.pats;
    KindsApart(r.self.pats, r.trust.pats, 1);
    DistinctConcat(r.self.pats, r.trust.pats);
    var a2 := a1 + r.exiport.pats;
    KindsApart(a1, r.exiport.pats, 2);
    DistinctConcat(a1, r.exiport.pats);
    var a3 := a2 + r.protect.pats;
    KindsApart(a2, r.protect.pats, 3);
    DistinctConcat(a2, r.protect.pats);
    var a4 := a3 + r.white.pats;
    KindsApart(a3, r.white.pats, 4);
    DistinctConcat(a3, r.white.pats);
    var a5 := a4 + r.inc.pats;
    KindsApart(a4, r.inc.pats, 5);
    DistinctConcat(a4, r.inc.pats);
    KindsApart(a5, r.exc.pats, 6);
    DistinctConcat(a5, r.exc.pats);
  }

  /** A family's rules are covered and trusted in the joined tables. */
  lemma FamilyInLoaded(r: Rows, f: Family, k: nat, others: set<Name>, procs: seq<ProcRow>)
    requires FamilyOk(f, k, others, procs)
    requires forall p :: p in f.pats ==> p in AllPats(r)
    requires others <= Names(AllPats(r))
    requires forall q :: q in procs ==> q in Loaded(r).procs
    ensures Covered(f.rules, Names(AllPats(r))) && Trusted(f.rules, Loaded(r).procs)
  {
    hide Covered, Trusted, Distinct;
    assert Names(f.pats) <= Names(AllPats(r));
    CoveredMore(f.rules, Names(f.pats) + others, Names(AllPats(r)));
    TrustedMore(f.rules, procs, Loaded(r).procs);
  }

  lemma LoadedConsistent(r: Rows)
    requires RowsOk(r)
    ensures Consistent(Loaded(r))
  {
    AllPatsDistinct(r);
    hide Distinct, Covered, Trusted, FamilyOk;
    var names, procs := Names(AllPats(r)), Loaded(r).procs;
    assert Names(r.protect.pats) <= names;
    FamilyInLoaded(r, r.self, 0, {}, []);
    FamilyInLoaded(r, r.trust, 1, {}, []);
    FamilyInLoaded(r, r.exiport, 2, {}, r.exiportProcs);
    FamilyInLoaded(r, r.protect, 3, {}, r.protectProcs);
    FamilyInLoaded(r, r.white, 4, {}, r.protectProcs);
    FamilyInLoaded(r, r.inc, 5, Names(r.protect.pats), r.protectProcs);
    FamilyInLoaded(r, r.exc, 6, Names(r.protect.pats), r.protectProcs);
    JoinRules(r.self.rules, r.trust.rules, names, procs);
    JoinRules(r.self.rules + r.trust.rules, r.exiport.rules, names, procs);
    JoinRules(r.self.rules + r.trust.rules + r.exiport.rules, r.protect.rules, names, procs);
    JoinRules(r.self.rules + r.trust.rules + r.exiport.rules + r.protect.rules, r.white.rules, names, procs);
    JoinRules(r.self.rules + r.trust.rules + r.exiport.rules + r.protect.rules + r.white.rules, r.inc.rules, names, procs);
    JoinRules(r.self.rules + r.trust.rules + r.exiport.rules + r.protect.rules + r.white.rules + r.inc.rules, r.exc.rules, names, procs);
  }

  lemma JoinRules(x: seq<Rule>, y: seq<Rule>, names: set<Name>, procs: seq<ProcRow>)
    requires Covered(x, names) && Covered(y, names) && Trusted(x, procs) && Trusted(y, procs)
    ensures Covered(x + y, names) && Trusted(x + y, procs)
  {
    CoveredConcat(x, y, names);
    TrustedConcat(x, y, procs);
  }

  // ---------------------------------------------------------------- what a reload depends on

  /** The fields that decide whether to reload: all patterns and trusted processes, but no
      rules. */
  datatype Compared = Compared(self: seq<Pattern>, trust: seq<Pattern>, exiport: seq<Pattern>, protect: seq<Pattern>,
                               white: seq<Pattern>, inc: seq<Pattern>, exc: seq<Pattern>,
                               exiportProcs: seq<ProcRow>, protectProcs: seq<ProcRow>)

  function Compare(r: Rows): Compared {
    Compared(r.self.pats, r.trust.pats, r.exiport.pats, r.protect.pats, r.white.pats, r.inc.pats, r.exc.pats,
             r.exiportProcs, r.protectProcs)
  }

  function WithTrust(r: Rows, ds: seq<TrustDir>): Rows {
    r.(trust := TrustUpTo(Taken(ds), |Taken(ds)|))
  }

  function WithExports(r: Rows, es: seq<Export>): Rows {
    var x := ExportUpTo(Taken(es), |Taken(es)|);
    r.(exiport := x.fam, exiportProcs := x.procs)
  }

  function WithProtects(r: Rows, ds: seq<Protect>): Rows {
    var x := ProtectUpTo(Taken(ds), |Taken(ds)|);
    r.(protect := x.dirs, white := x.white, inc := x.inc, exc := x.exc, protectProcs := x.procs)
  }

  const NO_ROWS: Rows := Rows(NO_FAMILY, NO_FAMILY, NO_FAMILY, NO_FAMILY, NO_FAMILY, NO_FAMILY, NO_FAMILY, [], [])

  /** The public calls and what they make of the generated rows. Clearing the export
      directories leaves their trusted processes behind. */
  datatype Call =
    | AddFilePattern(enable: bool)
    | SetGlobalTrustDir(trust: seq<TrustDir>)
    | SetExiportDir(exports: seq<Export>)
    | ClearExiportDir
    | SetProtectDir(protects: seq<Protect>)
    | ClearProtectDir

  function Generated(r: Rows, c: Call): Rows {
    match c
    case AddFilePattern(enable) => if enable then r.(self := SelfFamily()) else r
    case SetGlobalTrustDir(ds) => WithTrust(r, ds)
    case SetExiportDir(es) => WithExports(r, es)
    case ClearExiportDir => r.(exiport := NO_FAMILY)
    case SetProtectDir(ds) => WithProtects(r, ds)
    case ClearProtectDir => WithProtects(r, [])
  }

  lemma GeneratedOk(r: Rows, c: Call)
    requires RowsOk(r)
    ensures RowsOk(Generated(r, c))
  {
    hide FamilyOk, Below, TrustUpTo, ExportUpTo, SelfFamily;
    match c
    case AddFilePattern(_) => SelfOk();
    case SetGlobalTrustDir(ds) => TrustOk(Taken(ds), |Taken(ds)|);
    case SetExiportDir(es) => ExportOk(Taken(es), |Taken(es)|);
    case ClearExiportDir => ClearedOk(r.exiportProcs);
    case SetProtectDir(ds) => ProtectUpToOk(Taken(ds), |Taken(ds)|);
    case ClearProtectDir => NoProtectOk();
  }

  lemma ClearedOk(procs: seq<ProcRow>)
    ensures FamilyOk(NO_FAMILY, 2, {}, procs)
  {
  }

  lemma NoRowsOk()
    ensures RowsOk(NO_ROWS)
  {
    assert Names([]) == {};
  }

  /** The rows after any sequence of calls, and the tables: those of the last reload. */
  datatype Machine = Machine(rows: Rows, kernel: Kernel, loads: nat)

  function Step(m: Machine, c: Call): Machine {
    var rows := Generated(m.rows, c);
    if Compare(rows) != Compare(m.rows) then Machine(rows, Loaded(rows), m.loads + 1)
    else m.(rows := rows)
  }

  function Run(m: Machine, cs: seq<Call>): Machine {
    if cs == [] then m else Step(Run(m, cs[..|cs| - 1]), cs[|cs| - 1])
  }

  function Boot(k: Kernel): Machine {
    Machine(NO_ROWS, k, 0)
  }

  /** The tables come from rows that agree with the present ones on everything compared. */
  ghost predicate Mirrors(m: Machine) {
    && m.kernel.pats == AllPats(m.rows)
    && m.kernel.procs == m.rows.protectProcs + m.rows.exiportProcs
    && Consistent(m.kernel)
  }

  /** Over any sequence of calls, from any state of the kernel: until the first reload
      nothing has been generated; from then on the pattern and trusted-process tables are
      the present ones, and all tables are consistent. */
  lemma {:induction false} TablesOnEveryRun(k: Kernel, cs: seq<Call>)
    ensures var m := Run(Boot(k), cs);
            && RowsOk(m.rows)
            && (m.loads == 0 ==> m.kernel == k && Compare(m.rows) == Compare(NO_ROWS))
            && (m.loads > 0 ==> Mirrors(m))
  {
    hide RowsOk, Consistent, Generated;
    if cs == [] {
      NoRowsOk();
    } else {
      var m, c := Run(Boot(k), cs[..|cs| - 1]), cs[|cs| - 1];
      TablesOnEveryRun(k, cs[..|cs| - 1]);
      GeneratedOk(m.rows, c);
      LoadedConsistent(Generated(m.rows, c));
    }
  }

  // ---------------------------------------------------------------- rules that a reload misses

  lemma SplitAt(a: seq<Pattern>, b: seq<Pattern>, a': seq<Pattern>, b': seq<Pattern>, n: nat)
    requires Below(a, n) && Below(a', n) && At(b, n) && At(b', n) && a + b == a' + b'
    ensures a == a' && b == b'
  {
    var s := a + b;
    assert forall i :: 0 <= i < |s| ==> (s[i].name.i < n <==> i < |a|);
    assert forall i :: 0 <= i < |s| ==> (s[i].name.i < n <==> i < |a'|);
    assert |a| < |s| ==> !(s[|a|].name.i < n);
    assert |a'| < |s| ==> !(s[|a'|].name.i < n);
    assert a == s[..|a|] && a' == s[..|a'|] && b == s[|a|..] && b' == s[|a'|..];
  }

  /** What a policy says that no pattern and no trusted process records. */
  ghost predicate SameExports(es: seq<Export>, es': seq<Export>, n: nat)
    requires n <= |es| && n <= |es'|
  {
    forall i :: 0 <= i < n ==> (es[i].hashes == [] <==> es'[i].hashes == [])
  }

  lemma {:induction false} ExportSizes(es: seq<Export>, n: nat)
    requires n <= |es|
    ensures |ExportUpTo(es, n).fam.pats| == n && |ExportUpTo(es, n).fam.rules| == n
  {
    if n > 0 {
      ExportSizes(es, n - 1);
    }
  }

  /** With equal patterns, the rules are equal exactly when the same policies name trusted
      processes. */
  lemma {:induction false} ExportRulesIff(es: seq<Export>, es': seq<Export>, n: nat)
    requires n <= |es| && n <= |es'|
    requires ExportUpTo(es, n).fam.pats == ExportUpTo(es', n).fam.pats
    ensures ExportUpTo(es, n).fam.rules == ExportUpTo(es', n).fam.rules <==> SameExports(es, es', n)
    ensures SameExports(es, es', n) ==> ExportUpTo(es, n).number == ExportUpTo(es', n).number
  {
    hide Procs;
    if n > 0 {
      var m := n - 1;
      ExportSizes(es, m);
      ExportSizes(es', m);
      var x, x', y, y' := ExportUpTo(es, m), ExportUpTo(es', m), ExportUpTo(es, n), ExportUpTo(es', n);
      assert x.fam.pats == y.fam.pats[..m] && x'.fam.pats == y'.fam.pats[..m];
      assert y.fam.pats[m] == y'.fam.pats[m];
      assert es[m].typ == 1 <==> es'[m].typ == 1;
      ExportRulesIff(es, es', m);
      assert x.fam.rules == y.fam.rules[..m] && x'.fam.rules == y'.fam.rules[..m];
      if y.fam.rules == y'.fam.rules {
        assert y.fam.rules[m] == y'.fam.rules[m];
      }
    }
  }

  ghost predicate SamePats(x: ProtectRows, y: ProtectRows) {
    x.dirs.pats == y.dirs.pats && x.white.pats == y.white.pats && x.inc.pats == y.inc.pats && x.exc.pats == y.exc.pats
  }

  ghost predicate SameRules(x: ProtectRows, y: ProtectRows) {
    x.dirs.rules == y.dirs.rules && x.white.rules == y.white.rules && x.inc.rules == y.inc.rules && x.exc.rules == y.exc.rules
  }

  ghost predicate SameSizes(x: ProtectRows, y: ProtectRows) {
    && |x.dirs.rules| == |y.dirs.rules| && |x.white.rules| == |y.white.rules|
    && |x.inc.rules| == |y.inc.rules| && |x.exc.rules| == |y.exc.rules|
  }

  /** What a protected directory says that no pattern and no trusted process records. */
  ghost predicate SameProtects(ds: seq<Protect>, ds': seq<Protect>, n: nat)
    requires n <= |ds| && n <= |ds'|
  {
    forall i :: 0 <= i < n ==> ds[i].protectRw == ds'[i].protectRw && (ds[i].whiteHash == "" <==> ds'[i].whiteHash == "")
  }

  function ExcParts(d: Protect): seq<string> {
    if d.includeFile == "" then Parts(d.fileExt, '|') else []
  }

  /** Two policies that generate as many rows of every family. */
  ghost predicate SameShape(d: Protect, d': Protect) {
    && |Parts(d.isWhite, '|')| == |Parts(d'.isWhite, '|')|
    && |Parts(d.includeFile, '|')| == |Parts(d'.includeFile, '|')|
    && |ExcParts(d)| == |ExcParts(d')|
  }

  lemma {:induction false} ProtectSizes(ds: seq<Protect>, n: nat)
    requires n <= |ds|
    ensures |ProtectUpTo(ds, n).dirs.pats| == n
  {
    hide DirPattern, DirRules, Parts, WhitePats, WhiteRules, IncPats, IncRules, ExcPats, ExcRules, Procs, Split;
    if n > 0 {
      ProtectSizes(ds, n - 1);
    }
  }

  lemma PartsAt(i: nat, parts: seq<string>)
    ensures At(WhitePats(i, parts), i) && At(IncPats(i, parts), i) && At(ExcPats(i, parts), i)
  {
  }

  /** Equal patterns of n policies are equal patterns of the first n - 1 and of the last. */
  lemma ProtectPrefix(ds: seq<Protect>, ds': seq<Protect>, n: nat)
    requires 0 < n <= |ds| && n <= |ds'| && SamePats(ProtectUpTo(ds, n), ProtectUpTo(ds', n))
    ensures SamePats(ProtectUpTo(ds, n - 1), ProtectUpTo(ds', n - 1)) && SameShape(ds[n - 1], ds'[n - 1])
  {
    var m := n - 1;
    var d, d' := ds[m], ds'[m];
    var x, x' := ProtectUpTo(ds, m), ProtectUpTo(ds', m);
    var y, y' := ProtectUpTo(ds, n), ProtectUpTo(ds', n);
    var white, white' := Parts(d.isWhite, '|'), Parts(d'.isWhite, '|');
    var inc, inc' := Parts(d.includeFile, '|'), Parts(d'.includeFile, '|');
    var exc, exc' := ExcParts(d), ExcParts(d');
    hide FamilyOk, Below, At, DirPattern, DirRules, Parts, WhitePats, WhiteRules, IncPats, IncRules, ExcPats, ExcRules, Procs, Split;
    ProtectSizes(ds, m);
    ProtectSizes(ds', m);
    ProtectUpToOk(ds, m);
    ProtectUpToOk(ds', m);
    assert x.dirs.pats == y.dirs.pats[..m] && x'.dirs.pats == y'.dirs.pats[..m];
    PartsAt(m, white); PartsAt(m, white');
    PartsAt(m, inc); PartsAt(m, inc');
    PartsAt(m, exc); PartsAt(m, exc');
    SplitAt(x.white.pats, WhitePats(m, white), x'.white.pats, WhitePats(m, white'), m);
    SplitAt(x.inc.pats, IncPats(m, inc), x'.inc.pats, IncPats(m, inc'), m);
    SplitAt(x.exc.pats, ExcPats(m, exc), x'.exc.pats, ExcPats(m, exc'), m);
  }

  lemma {:induction false} ProtectRuleSizes(ds: seq<Protect>, ds': seq<Protect>, n: nat)
    requires n <= |ds| && n <= |ds'| && SamePats(ProtectUpTo(ds, n), ProtectUpTo(ds', n))
    ensures SameSizes(ProtectUpTo(ds, n), ProtectUpTo(ds', n))
  {
    hide SamePats, SameShape, SameSizes, ProtectStep, ProtectUpTo;
    if n == 0 {
      ProtectZero(ds, ds');
    } else {
      ProtectPrefix(ds, ds', n);
      ProtectRuleSizes(ds, ds', n - 1);
      ProtectNext(ds, n);
      ProtectNext(ds', n);
      StepSizes(ProtectUpTo(ds, n - 1), ProtectUpTo(ds', n - 1), n - 1, ds[n - 1], ds'[n - 1]);
    }
  }

  lemma StepSizes(x: ProtectRows, x': ProtectRows, i: nat, d: Protect, d': Protect)
    requires SameSizes(x, x') && SameShape(d, d')
    ensures SameSizes(ProtectStep(x, i, d), ProtectStep(x', i, d'))
  {
    hide DirPattern, WhitePats, WhiteRules, IncPats, IncRules, ExcPats, ExcRules, Procs, Split;
  }

  lemma ConcatEq<T>(a: seq<T>, b: seq<T>, a': seq<T>, b': seq<T>)
    requires |a| == |a'|
    ensures a + b == a' + b' <==> a == a' && b == b'
  {
    assert a == (a + b)[..|a|] && a' == (a' + b')[..|a|] && b == (a + b)[|a|..] && b' == (a' + b')[|a|..];
  }

  lemma StepRulesIff(i: nat, d: Protect, d': Protect, tpnc: Option<nat>, tpnc': Option<nat>)
    requires SameShape(d, d')
    ensures var p, p' := Parts(d.includeFile, '|'), Parts(d'.includeFile, '|');
            DirRules(i, d, tpnc) == DirRules(i, d', tpnc') && IncRules(i, d, p, tpnc) == IncRules(i, d', p', tpnc')
            <==> d.protectRw == d'.protectRw && tpnc == tpnc'
    ensures WhiteRules(i, Parts(d.isWhite, '|')) == WhiteRules(i, Parts(d'.isWhite, '|'))
    ensures ExcRules(i, ExcParts(d)) == ExcRules(i, ExcParts(d'))
  {
    var p, p' := Parts(d.includeFile, '|'), Parts(d'.includeFile, '|');
    hide Split;
    var x, x' := DirRules(i, d, tpnc), DirRules(i, d', tpnc');
    var y, y' := IncRules(i, d, p, tpnc), IncRules(i, d', p', tpnc');
    if x == x' && y == y' {
      if d.includeFile == "" {
        assert x[0] == x'[0];
      } else {
        assert y[0] == y'[0];
      }
    }
  }

  function Tpnc(number: nat, d: Protect): Option<nat> {
    if d.whiteHash == "" then None else Some(number + 1)
  }

  lemma ProtectStepIff(x: ProtectRows, x': ProtectRows, i: nat, d: Protect, d': Protect)
    requires SameSizes(x, x') && SameShape(d, d')
    ensures SameRules(ProtectStep(x, i, d), ProtectStep(x', i, d')) <==>
            SameRules(x, x') && d.protectRw == d'.protectRw && Tpnc(x.number, d) == Tpnc(x'.number, d')
  {
    hide SameShape, DirPattern, DirRules, Parts, WhitePats, WhiteRules, IncPats, IncRules, ExcPats, ExcRules, Procs, Split;
    var tpnc, tpnc' := Tpnc(x.number, d), Tpnc(x'.number, d');
    StepRulesIff(i, d, d', tpnc, tpnc');
    ConcatEq(x.dirs.rules, DirRules(i, d, tpnc), x'.dirs.rules, DirRules(i, d', tpnc'));
    ConcatEq(x.white.rules, WhiteRules(i, Parts(d.isWhite, '|')), x'.white.rules, WhiteRules(i, Parts(d'.isWhite, '|')));
    ConcatEq(x.inc.rules, IncRules(i, d, Parts(d.includeFile, '|'), tpnc), x'.inc.rules, IncRules(i, d', Parts(d'.includeFile, '|'), tpnc'));
    ConcatEq(x.exc.rules, ExcRules(i, ExcParts(d)), x'.exc.rules, ExcRules(i, ExcParts(d')));
  }

  lemma ProtectNumber(x: ProtectRows, i: nat, d: Protect)
    ensures ProtectStep(x, i, d).number == if d.whiteHash == "" then x.number else x.number + 1
  {
  }

  /** With equal patterns, the rules are equal exactly when every directory keeps its
      read-write flag and whether it names trusted processes. */
  lemma {:induction false} ProtectRulesIff(ds: seq<Protect>, ds': seq<Protect>, n: nat)
    requires n <= |ds| && n <= |ds'| && SamePats(ProtectUpTo(ds, n), ProtectUpTo(ds', n))
    ensures SameRules(ProtectUpTo(ds, n), ProtectUpTo(ds', n)) <==> SameProtects(ds, ds', n)
    ensures SameProtects(ds, ds', n) ==> ProtectUpTo(ds, n).number == ProtectUpTo(ds', n).number
  {
    hide SamePats, SameShape, SameRules, SameSizes, ProtectStep, ProtectUpTo;
    if n == 0 {
      ProtectZero(ds, ds');
    } else {
      var m := n - 1;
      var d, d' := ds[m], ds'[m];
      var x, x' := ProtectUpTo(ds, m), ProtectUpTo(ds', m);
      ProtectNext(ds, n);
      ProtectNext(ds', n);
      ProtectPrefix(ds, ds', n);
      ProtectRulesIff(ds, ds', m);
      ProtectRuleSizes(ds, ds', m);
      ProtectStepIff(x, x', m, d, d');
      assert SameProtects(ds, ds', n) <==>
             SameProtects(ds, ds', m) && d.protectRw == d'.protectRw && (d.whiteHash == "" <==> d'.whiteHash == "");
    }
  }

  lemma ProtectZero(ds: seq<Protect>, ds': seq<Protect>)
    ensures ProtectUpTo(ds, 0) == ProtectUpTo(ds', 0) && SameRules(ProtectUpTo(ds, 0), ProtectUpTo(ds', 0))
    ensures SameSizes(ProtectUpTo(ds, 0), ProtectUpTo(ds', 0))
  {
  }

  lemma ProtectNext(ds: seq<Protect>, n: nat)
    requires 0 < n <= |ds|
    ensures var x, d := ProtectUpTo(ds, n - 1), ds[n - 1];
            && ProtectUpTo(ds, n) == ProtectStep(x, n - 1, d)
            && ProtectUpTo(ds, n).number == if d.whiteHash == "" then x.number else x.number + 1
  {
    ProtectNumber(ProtectUpTo(ds, n - 1), n - 1, ds[n - 1]);
  }

  /** The policies in use differ only in what the comparison can see. */
  ghost predicate Visible(c: Call, c': Call) {
    match (c, c')
    case (SetExiportDir(es), SetExiportDir(es')) =>
      |Taken(es)| == |Taken(es')| && SameExports(Taken(es), Taken(es'), |Taken(es)|)
    case (SetProtectDir(ds), SetProtectDir(ds')) =>
      |Taken(ds)| == |Taken(ds')| && SameProtects(Taken(ds), Taken(ds'), |Taken(ds)|)
    case _ => true
  }

  /** Exactly when a missed reload leaves outdated rules: two downloads of export policies
      that look the same to the comparison generate the same rules if and only if the same
      policies name trusted processes. */
  lemma MissedExports(r: Rows, es: seq<Export>, es': seq<Export>)
    requires Compare(WithExports(r, es)) == Compare(WithExports(r, es'))
    ensures AllRules(WithExports(r, es)) == AllRules(WithExports(r, es')) <==> Visible(SetExiportDir(es), SetExiportDir(es'))
  {
    hide ExportUpTo;
    var n := |Taken(es)|;
    ExportSizes(Taken(es), n);
    ExportSizes(Taken(es'), |Taken(es')|);
    ExportRulesIff(Taken(es), Taken(es'), n);
    var x, x' := WithExports(r, es), WithExports(r, es');
    var tail := r.protect.rules + r.white.rules + r.inc.rules + r.exc.rules;
    var head := r.self.rules + r.trust.rules;
    assert AllRules(x) == head + (x.exiport.rules + tail) && AllRules(x') == head + (x'.exiport.rules + tail);
    ConcatEq(head, x.exiport.rules + tail, head, x'.exiport.rules + tail);
    ConcatEq(x.exiport.rules, tail, x'.exiport.rules, tail);
  }

  /** The same for protected directories: read-write flags count as well. */
  lemma MissedProtects(r: Rows, ds: seq<Protect>, ds': seq<Protect>)
    requires Compare(WithProtects(r, ds)) == Compare(WithProtects(r, ds'))
    ensures AllRules(WithProtects(r, ds)) == AllRules(WithProtects(r, ds')) <==> Visible(SetProtectDir(ds), SetProtectDir(ds'))
  {
    hide ProtectUpTo;
    var n := |Taken(ds)|;
    ProtectSizes(Taken(ds), n);
    ProtectSizes(Taken(ds'), |Taken(ds')|);
    ProtectRulesIff(Taken(ds), Taken(ds'), n);
    ProtectRuleSizes(Taken(ds), Taken(ds'), n);
    var x, x' := WithProtects(r, ds), WithProtects(r, ds');
    var head := r.self.rules + r.trust.rules + r.exiport.rules;
    assert AllRules(x) == head + (x.protect.rules + (x.white.rules + (x.inc.rules + x.exc.rules)));
    assert AllRules(x') == head + (x'.protect.rules + (x'.white.rules + (x'.inc.rules + x'.exc.rules)));
    ConcatEq(head, x.protect.rules + (x.white.rules + (x.inc.rules + x.exc.rules)), head, x'.protect.rules + (x'.white.rules + (x'.inc.rules + x'.exc.rules)));
    ConcatEq(x.protect.rules, x.white.rules + (x.inc.rules + x.exc.rules), x'.protect.rules, x'.white.rules + (x'.inc.rules + x'.exc.rules));
    ConcatEq(x.white.rules, x.inc.rules + x.exc.rules, x'.white.rules, x'.inc.rules + x'.exc.rules);
    ConcatEq(x.inc.rules, x.exc.rules, x'.inc.rules, x'.exc.rules);
  }

  lemma {:induction false} TrustRulesSame(ds: seq<TrustDir>, ds': seq<TrustDir>, n: nat)
    requires n <= |ds| && n <= |ds'|
    ensures TrustUpTo(ds, n).rules == TrustUpTo(ds', n).rules && |TrustUpTo(ds, n).pats| == n
  {
    if n > 0 {
      TrustRulesSame(ds, ds', n - 1);
    }
  }

  /** Trusted directories are never missed. */
  lemma NeverMissedTrust(r: Rows, ds: seq<TrustDir>, ds': seq<TrustDir>)
    requires Compare(WithTrust(r, ds)) == Compare(WithTrust(r, ds'))
    ensures AllRules(WithTrust(r, ds)) == AllRules(WithTrust(r, ds'))
  {
    TrustRulesSame(Taken(ds), Taken(ds), |Taken(ds)|);
    TrustRulesSame(Taken(ds'), Taken(ds'), |Taken(ds')|);
    TrustRulesSame(Taken(ds), Taken(ds'), |Taken(ds)|);
  }

  /** Making a protected directory read-only to writers leaves the old rule in the kernel. */
  lemma OutdatedRules(k: Kernel) returns (cs: seq<Call>)
    ensures var m := Run(Boot(k), cs); m.loads > 0 && m.kernel.rules != AllRules(m.rows)
  {
    var d := Protect("/srv", 0, 1, 1, "", "", "", "");
    var d' := d.(protectRw := 1);
    var c, c' := SetProtectDir([d]), SetProtectDir([d']);
    cs := [c, c'];
    var m := Step(Boot(k), c);
    assert cs[..1] == [c] && [c][..0] == [];
    assert Run(Boot(k), [c]) == m;
    assert Taken([d]) == [d] && Taken([d']) == [d'];
    var x, x' := ProtectUpTo([d], 1), ProtectUpTo([d'], 1);
    assert x == ProtectStep(ProtectUpTo([d], 0), 0, d) && x' == ProtectStep(ProtectUpTo([d'], 0), 0, d');
    assert SamePats(x, x') && x.procs == x'.procs;
    assert x.dirs.pats[0] == DirPattern(0, d);
    assert Compare(m.rows) != Compare(NO_ROWS);
    assert Generated(m.rows, c') == WithProtects(NO_ROWS, [d']);
    MissedProtects(NO_ROWS, [d], [d']);
  }

  // ---------------------------------------------------------------- the manager

  class PatternRulesMgr {
    var constFile: Family
    var globalTrustDir: Family
    var exiportDir: Family
    var protectDir: Family
    var protectDirWhite: Family
    var protectDirIncludeExe: Family
    var protectDirExcludeExe: Family
    var exiportTrueProcess: seq<ProcRow>
    var protectTrueProcess: seq<ProcRow>
    var pre: Compared
    var kernel: Kernel
    ghost var loads: nat

    function Current(): Rows reads this {
      Rows(constFile, globalTrustDir, exiportDir, protectDir, protectDirWhite, protectDirIncludeExe, protectDirExcludeExe,
           exiportTrueProcess, protectTrueProcess)
    }

    ghost function State(): Machine reads this {
      Machine(Current(), kernel, loads)
    }

    /** Between calls the backup is up to date. */
    ghost predicate Valid() reads this {
      pre == Compare(Current()) && RowsOk(Current())
    }

    constructor (k: Kernel)
      ensures Valid() && State() == Boot(k)
    {
      constFile, globalTrustDir, exiportDir := NO_FAMILY, NO_FAMILY, NO_FAMILY;
      protectDir, protectDirWhite, protectDirIncludeExe, protectDirExcludeExe := NO_FAMILY, NO_FAMILY, NO_FAMILY, NO_FAMILY;
      exiportTrueProcess, protectTrueProcess := [], [];
      pre, kernel, loads := Compare(NO_ROWS), k, 0;
      new;
      NoRowsOk();
    }

    method WritePatterns(pats: seq<Pattern>)
      modifies this`kernel
      ensures kernel == old(kernel).(pats := old(kernel).pats + pats)
    {
      kernel := kernel.(pats := kernel.pats + pats);
    }

    method WriteRules(rules: seq<Rule>)
      modifies this`kernel
      ensures kernel == old(kernel).(rules := old(kernel).rules + rules)
    {
      kernel := kernel.(rules := kernel.rules + rules);
    }

    method WriteProcs(procs: seq<ProcRow>)
      modifies this`kernel
      ensures kernel == old(kernel).(procs := old(kernel).procs + procs)
    {
      kernel := kernel.(procs := kernel.procs + procs);
    }

    /** A family is skipped when it has no patterns; then it has no rules either. */
    method WriteFamily(f: Family)
      requires f.pats == [] ==> f.rules == []
      modifies this`kernel
      ensures kernel == Kernel(old(kernel).pats + f.pats, old(kernel).rules + f.rules, old(kernel).procs)
    {
      if f.pats != [] {
        WritePatterns(f.pats);
        WriteRules(f.rules);
      }
    }

    /** The directories' patterns and rules are looked at one by one: a directory with
        included suffixes has no rule of its own. */
    method WriteProtect(f: Family)
      modifies this`kernel
      ensures kernel == Kernel(old(kernel).pats + f.pats, old(kernel).rules + f.rules, old(kernel).procs)
    {
      if f.pats != [] {
        WritePatterns(f.pats);
      }
      if f.rules != [] {
        WriteRules(f.rules);
      }
    }

    method WriteTrusted(procs: seq<ProcRow>)
      modifies this`kernel
      ensures kernel == old(kernel).(procs := old(kernel).procs + procs)
    {
      if procs != [] {
        WriteProcs(procs);
      }
    }

    lemma NoOrphans()
      requires RowsOk(Current())
      ensures constFile.pats == [] ==> constFile.rules == []
      ensures globalTrustDir.pats == [] ==> globalTrustDir.rules == []
      ensures exiportDir.pats == [] ==> exiportDir.rules == []
      ensures protectDirWhite.pats == [] ==> protectDirWhite.rules == []
      ensures protectDirIncludeExe.pats == [] ==> protectDirIncludeExe.rules == []
      ensures protectDirExcludeExe.pats == [] ==> protectDirExcludeExe.rules == []
    {
      hide Distinct, Covered, Trusted, OfKind, Names;
    }

    method LoadPatternRules()
      requires RowsOk(Current()) && kernel == Kernel([], [], [])
      modifies this`kernel
      ensures kernel == Loaded(Current())
    {
      hide RowsOk;
      NoOrphans();
      WriteFamily(constFile);
      WriteFamily(globalTrustDir);
      WriteFamily(exiportDir);
      WriteProtect(protectDir);
      WriteFamily(protectDirWhite);
      WriteFamily(protectDirIncludeExe);
      WriteFamily(protectDirExcludeExe);
      WriteTrusted(protectTrueProcess);
      WriteTrusted(exiportTrueProcess);
      assert [] + constFile.pats == constFile.pats && [] + constFile.rules == constFile.rules;
      assert [] + protectTrueProcess == protectTrueProcess;
    }

    /** Clear, load and back up, if anything compared has changed. */
    method SetPatternRules(ghost was: Machine, ghost c: Call)
      requires pre == Compare(was.rows) && RowsOk(was.rows) && kernel == was.kernel && loads == was.loads
      requires Current() == Generated(was.rows, c)
      modifies this`pre, this`kernel, this`loads
      ensures Valid() && State() == Step(was, c)
    {
      hide RowsOk, Generated;
      GeneratedOk(was.rows, c);
      if pre != Compare(Current()) {
        kernel := Kernel([], [], []);
        LoadPatternRules();
        pre := Compare(Current());
        loads := loads + 1;
      }
    }

    method AddFilePattern(enable: bool)
      requires Valid()
      modifies this
      ensures Valid() && State() == Step(old(State()), Call.AddFilePattern(enable))
    {
      hide RowsOk;
      if enable {
        constFile := SelfFamily();
        SetPatternRules(old(State()), Call.AddFilePattern(true));
      }
    }

    method SetGlobalTrustDir(dirs: seq<TrustDir>)
      requires Valid()
      modifies this
      ensures Valid() && State() == Step(old(State()), Call.SetGlobalTrustDir(dirs))
    {
      hide RowsOk;
      globalTrustDir := NO_FAMILY;
      var used := Taken(dirs);
      for i := 0 to |used|
        invariant globalTrustDir == TrustUpTo(used, i)
        invariant Current() == old(Current()).(trust := globalTrustDir) && unchanged(`pre, `kernel, `loads)
      {
        var d := used[i];
        var attrs := if d.isExtend == 0 then [NotExtend] else [];
        attrs := attrs + (if d.typ == 1 then [Depth(|d.dir|)] else [WholeLength]) + [CaseOffset];
        globalTrustDir := Family(globalTrustDir.pats + [Pattern(TrueDir(i), d.dir, attrs)],
                                 globalTrustDir.rules + [Rule([TrueDir(i)], 0, None, None, None, None)]);
      }
      SetPatternRules(old(State()), Call.SetGlobalTrustDir(dirs));
    }

    method SetExiportDir(exports: seq<Export>)
      requires Valid()
      modifies this
      ensures Valid() && State() == Step(old(State()), Call.SetExiportDir(exports))
    {
      hide RowsOk, ExportStep;
      exiportDir, exiportTrueProcess := NO_FAMILY, [];
      var number := 0;
      var used := Taken(exports);
      for i := 0 to |used|
        invariant number >= 0 && ExportRows(exiportDir, exiportTrueProcess, number) == ExportUpTo(used, i)
        invariant Current() == old(Current()).(exiport := exiportDir, exiportProcs := exiportTrueProcess)
        invariant unchanged(`pre, `kernel, `loads)
      {
        number := AddExport(i, used[i], number);
      }
      SetPatternRules(old(State()), Call.SetExiportDir(exports));
    }

    /** The body of the loop over export policies. */
    method AddExport(i: nat, e: Export, number0: nat) returns (number: nat)
      modifies this`exiportDir, this`exiportTrueProcess
      ensures ExportRows(exiportDir, exiportTrueProcess, number) == ExportStep(ExportRows(old(exiportDir), old(exiportTrueProcess), number0), i, e)
    {
      number := number0;
      var pat, action := Pattern(Exiport(i), e.fileType, [CaseOffset, Depth(|e.fileType|)]), None;
      if e.typ == 1 {
        pat, action := Pattern(Exiport(i), "." + e.fileType, [FromEnd(|e.fileType| + 1)]), Some(3);
      }
      var tpnc := None;
      if e.hashes != [] {
        number := number + 1;
        var rows := TrueProcesses(e.hashes, number, 99);
        exiportTrueProcess := exiportTrueProcess + rows;
        tpnc := Some(number);
      }
      exiportDir := Append(exiportDir, [pat], [Rule([Exiport(i)], 1, action, None, None, tpnc)]);
    }

    /** One row per hash. */
    method TrueProcesses(hashes: seq<string>, number: nat, tag: nat) returns (rows: seq<ProcRow>)
      ensures rows == Procs(hashes, number, tag)
    {
      rows := [];
      for j := 0 to |hashes|
        invariant rows == Procs(hashes[..j], number, tag)
      {
        rows := rows + [ProcRow(hashes[j], number, tag)];
      }
      assert hashes[..|hashes|] == hashes;
    }

    method ClearExiportDir()
      requires Valid()
      modifies this
      ensures Valid() && State() == Step(old(State()), Call.ClearExiportDir)
    {
      hide RowsOk;
      exiportDir := NO_FAMILY;
      SetPatternRules(old(State()), Call.ClearExiportDir);
    }

    /** The rows of the protected directories as a value. */
    function Protects(number: nat): ProtectRows reads this {
      ProtectRows(protectDir, protectDirWhite, protectDirIncludeExe, protectDirExcludeExe, protectTrueProcess, number)
    }

    method SetProtectDir(dirs: seq<Protect>)
      requires Valid()
      modifies this
      ensures Valid() && State() == Step(old(State()), Call.SetProtectDir(dirs))
    {
      hide RowsOk, ProtectStep;
      EmptyProtects();
      var number := 0;
      var used := Taken(dirs);
      for i := 0 to |used|
        invariant number >= 0 && Protects(number) == ProtectUpTo(used, i)
        invariant unchanged(`pre, `kernel, `loads, `constFile, `globalTrustDir, `exiportDir, `exiportTrueProcess)
      {
        number := AddProtect(i, used[i], number);
      }
      SetPatternRules(old(State()), Call.SetProtectDir(dirs));
    }

    method EmptyProtects()
      modifies this`protectDir, this`protectDirWhite, this`protectDirIncludeExe, this`protectDirExcludeExe, this`protectTrueProcess
      ensures Protects(0) == NO_PROTECT
    {
      protectDir, protectDirWhite, protectDirIncludeExe, protectDirExcludeExe := NO_FAMILY, NO_FAMILY, NO_FAMILY, NO_FAMILY;
      protectTrueProcess := [];
    }

    /** The body of the loop over protected directories. */
    method AddProtect(i: nat, d: Protect, number0: nat) returns (number: nat)
      modifies this`protectDir, this`protectDirWhite, this`protectDirIncludeExe, this`protectDirExcludeExe, this`protectTrueProcess
      ensures Protects(number) == ProtectStep(old(Protects(number0)), i, d)
    {
      hide Split, DirPattern, DirRules, WhitePats, WhiteRules, IncPats, IncRules, ExcPats, ExcRules, Procs;
      number := number0;
      var tpnc := None;
      if d.whiteHash != "" {
        number := number + 1;
        var rows := TrueProcesses(Split(d.whiteHash, ','), number, 88);
        protectTrueProcess := protectTrueProcess + rows;
        tpnc := Some(number);
      }
      if d.isWhite != "" {
        AddWhite(i, Split(d.isWhite, '|'));
      }
      protectDir := protectDir.(pats := protectDir.pats + [DirPattern(i, d)]);
      AddSuffixes(i, d, tpnc);
      EmptyParts(i, d, tpnc);
    }

    /** Included suffixes win over excluded ones; without included ones the directory has a
        rule of its own. */
    method AddSuffixes(i: nat, d: Protect, tpnc: Option<nat>)
      modifies this`protectDir, this`protectDirIncludeExe, this`protectDirExcludeExe
      ensures protectDir == Append(old(protectDir), [], DirRules(i, d, tpnc))
      ensures var inc := Parts(d.includeFile, '|');
              protectDirIncludeExe == Append(old(protectDirIncludeExe), IncPats(i, inc), IncRules(i, d, inc, tpnc))
      ensures var exc := ExcParts(d);
              protectDirExcludeExe == Append(old(protectDirExcludeExe), ExcPats(i, exc), ExcRules(i, exc))
    {
      hide Split, IncPats, IncRules, ExcPats, ExcRules;
      EmptyParts(i, d, tpnc);
      if d.includeFile != "" {
        AddInclude(i, d, Split(d.includeFile, '|'), tpnc);
      } else if d.fileExt != "" {
        protectDir := protectDir.(rules := protectDir.rules + [Rule([ProtectDir(i)], 2, None, Some(i), Some(d.protectRw), tpnc)]);
        AddExclude(i, Split(d.fileExt, '|'));
      } else {
        protectDir := protectDir.(rules := protectDir.rules + [Rule([ProtectDir(i)], 2, None, Some(i), Some(d.protectRw), tpnc)]);
      }
    }

    lemma EmptyParts(i: nat, d: Protect, tpnc: Option<nat>)
      ensures WhitePats(i, []) == [] && WhiteRules(i, []) == [] && IncPats(i, []) == [] && IncRules(i, d, [], tpnc) == []
      ensures ExcPats(i, []) == [] && ExcRules(i, []) == []
    {
    }

    method AddWhite(i: nat, parts: seq<string>)
      modifies this`protectDirWhite
      ensures protectDirWhite == Append(old(protectDirWhite), WhitePats(i, parts), WhiteRules(i, parts))
    {
      for j := 0 to |parts|
        invariant protectDirWhite == Append(old(protectDirWhite), WhitePats(i, parts)[..j], WhiteRules(i, parts)[..j])
      {
        protectDirWhite := Append(protectDirWhite, [Pattern(ExcludeDir(i, j), parts[j], [])],
                                  [Rule([ExcludeDir(i, j)], 2, Some(1), Some(i), None, None)]);
      }
    }

    method AddInclude(i: nat, d: Protect, parts: seq<string>, tpnc: Option<nat>)
      modifies this`protectDirIncludeExe
      ensures protectDirIncludeExe == Append(old(protectDirIncludeExe), IncPats(i, parts), IncRules(i, d, parts, tpnc))
    {
      for j := 0 to |parts|
        invariant protectDirIncludeExe == Append(old(protectDirIncludeExe), IncPats(i, parts)[..j], IncRules(i, d, parts, tpnc)[..j])
      {
        protectDirIncludeExe := Append(protectDirIncludeExe,
          [Pattern(IncFileExe(i, j), "." + parts[j], [FromEnd(|parts[j]| + 1)])],
          [Rule([ProtectDir(i), IncFileExe(i, j)], 2, Some(3), Some(i), Some(d.protectRw), tpnc)]);
      }
    }

    method AddExclude(i: nat, parts: seq<string>)
      modifies this`protectDirExcludeExe
      ensures protectDirExcludeExe == Append(old(protectDirExcludeExe), ExcPats(i, parts), ExcRules(i, parts))
    {
      for j := 0 to |parts|
        invariant protectDirExcludeExe == Append(old(protectDirExcludeExe), ExcPats(i, parts)[..j], ExcRules(i, parts)[..j])
      {
        protectDirExcludeExe := Append(protectDirExcludeExe,
          [Pattern(ExcFileExe(i, j), "." + parts[j], [FromEnd(|parts[j]| + 1)])],
          [Rule([ProtectDir(i), ExcFileExe(i, j)], 2, Some(2), Some(i), None, None)]);
      }
    }

    method ClearProtectDir()
      requires Valid()
      modifies this
      ensures Valid() && State() == Step(old(State()), Call.ClearProtectDir)
    {
      hide RowsOk;
      EmptyProtects();
      SetPatternRules(old(State()), Call.ClearProtectDir);
    }
  }
}
