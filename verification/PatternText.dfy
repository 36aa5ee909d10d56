/** The text of the kernel tables and of the comparison
    (crates/pattern/src/pattern_rules_mgr.rs). The manager compares generated text; the
    model of it compares rows. For fields free of the separators the two comparisons are
    the same. */
module PatternText {
  import opened Decimals
  import opened PatternRules

  const COMMA: char := ','
  const NEWLINE: char := '\n'

  // ---------------------------------------------------------------- rows as text

  function AttrText(a: Attr): string {
    match a
    case NotExtend => "isnot_extend=1"
    case Depth(n) => "depth=" + Decimal(n)
    case WholeLength => "pkt_len=-1"
    case CaseOffset => "case_offset=1"
    case FromEnd(n) => "offset=-" + Decimal(n)
  }

  function AttrTexts(attrs: seq<Attr>): (r: seq<string>)
    ensures |r| == |attrs| && forall i :: 0 <= i < |r| ==> r[i] == AttrText(attrs[i])
  {
    seq(|attrs|, i requires 0 <= i < |attrs| => AttrText(attrs[i]))
  }

  /** The fields of a pattern row in the order in which they are written. A prefix pattern
      of the export policies has its case flag in front of the key. */
  function Fields(p: Pattern): (fs: seq<string>)
    ensures fs != []
  {
    ["name=" + Text(p.name)] +
    if p.name.ProtectDir? then ["type=2", "key=" + p.key] + AttrTexts(p.attrs)
    else if p.name.Exiport? && p.attrs != [] && p.attrs[0] == CaseOffset then
      ["case_offset=1", "key=" + p.key] + AttrTexts(p.attrs[1..])
    else ["key=" + p.key] + AttrTexts(p.attrs)
  }

  function ProcFields(q: ProcRow): (fs: seq<string>)
    ensures fs != []
  {
    [q.hash, Decimal(q.number), Decimal(q.tag)]
  }

  /** Rows as text: fields joined by commas, every row ended by a newline. */
  function Table(rows: seq<seq<string>>): string
    requires forall i :: 0 <= i < |rows| ==> rows[i] != []
  {
    if rows == [] then "" else Join(rows[0], COMMA) + [NEWLINE] + Table(rows[1..])
  }

  function PatternRows(pats: seq<Pattern>): (r: seq<seq<string>>)
    ensures |r| == |pats| && forall i :: 0 <= i < |r| ==> r[i] == Fields(pats[i])
  {
    seq(|pats|, i requires 0 <= i < |pats| => Fields(pats[i]))
  }

  function ProcRows(procs: seq<ProcRow>): (r: seq<seq<string>>)
    ensures |r| == |procs| && forall i :: 0 <= i < |r| ==> r[i] == ProcFields(procs[i])
  {
    seq(|procs|, i requires 0 <= i < |procs| => ProcFields(procs[i]))
  }

  /** The nine texts that are compared. */
  function Texts(c: Compared): seq<string> {
    [Table(PatternRows(c.self)), Table(PatternRows(c.trust)), Table(PatternRows(c.exiport)), Table(PatternRows(c.protect)),
     Table(PatternRows(c.white)), Table(PatternRows(c.inc)), Table(PatternRows(c.exc)),
     Table(ProcRows(c.exiportProcs)), Table(ProcRows(c.protectProcs))]
  }

  // ---------------------------------------------------------------- the rows as they are written

  lemma AttrTextsAre(attrs: seq<Attr>)
    ensures attrs == [] ==> AttrTexts(attrs) == []
    ensures attrs != [] ==> AttrTexts(attrs) == [AttrText(attrs[0])] + AttrTexts(attrs[1..])
  {
  }

  lemma ThreeTexts(a: Attr, b: Attr, c: Attr)
    ensures AttrTexts([a]) == [AttrText(a)]
    ensures AttrTexts([a, b]) == [AttrText(a), AttrText(b)]
    ensures AttrTexts([a, b, c]) == [AttrText(a), AttrText(b), AttrText(c)]
  {
  }

  /** The fields of every generated pattern row, as they stand between the commas. */
  lemma DirText(i: nat, d: Protect)
    ensures Fields(DirPattern(i, d)) ==
            ["name=" + ("ProtectDir_" + Decimal(i)), "type=2", "key=" + d.dir] +
            if d.typ != 1 then ["case_offset=1", "pkt_len=-1"]
            else if d.isExtend == 0 then ["isnot_extend=1", "depth=" + Decimal(|d.dir|), "case_offset=1"]
            else ["depth=" + Decimal(|d.dir|), "case_offset=1"]
  {
    hide Decimal, AttrTexts;
    ThreeTexts(NotExtend, Depth(|d.dir|), CaseOffset);
    ThreeTexts(Depth(|d.dir|), CaseOffset, CaseOffset);
    ThreeTexts(CaseOffset, WholeLength, CaseOffset);
    assert [NotExtend] + [Depth(|d.dir|), CaseOffset] == [NotExtend, Depth(|d.dir|), CaseOffset];
    assert [] + [Depth(|d.dir|), CaseOffset] == [Depth(|d.dir|), CaseOffset];
  }

  lemma TrustText(f: Family, i: nat, d: TrustDir)
    ensures var p := TrustStep(f, i, d).pats[|f.pats|];
            Fields(p) ==
            ["name=" + ("trueDir_" + Decimal(i)), "key=" + d.dir] + (if d.isExtend == 0 then ["isnot_extend=1"] else []) +
            [if d.typ == 1 then "depth=" + Decimal(|d.dir|) else "pkt_len=-1", "case_offset=1"]
  {
    hide Decimal, AttrTexts;
    var place := if d.typ == 1 then Depth(|d.dir|) else WholeLength;
    ThreeTexts(NotExtend, place, CaseOffset);
    ThreeTexts(place, CaseOffset, CaseOffset);
    assert [NotExtend] + [place] + [CaseOffset] == [NotExtend, place, CaseOffset];
    assert [] + [place] + [CaseOffset] == [place, CaseOffset];
  }

  lemma ExportText(x: ExportRows, i: nat, e: Export)
    ensures var p := ExportStep(x, i, e).fam.pats[|x.fam.pats|];
            Fields(p) ==
            ["name=" + ("exiportInfo_" + Decimal(i))] +
            if e.typ == 1 then ["key=" + ("." + e.fileType), "offset=-" + Decimal(|e.fileType| + 1)]
            else ["case_offset=1", "key=" + e.fileType, "depth=" + Decimal(|e.fileType|)]
  {
    hide Decimal, AttrTexts, Procs;
    ThreeTexts(FromEnd(|e.fileType| + 1), CaseOffset, CaseOffset);
    ThreeTexts(Depth(|e.fileType|), CaseOffset, CaseOffset);
    assert [CaseOffset, Depth(|e.fileType|)][1..] == [Depth(|e.fileType|)];
  }

  lemma PartTexts(i: nat, parts: seq<string>, j: nat)
    requires j < |parts|
    ensures Fields(WhitePats(i, parts)[j]) == ["name=" + ("protectExcludeDir_" + (Decimal(i) + "_" + Decimal(j))), "key=" + parts[j]]
    ensures Fields(IncPats(i, parts)[j]) ==
            ["name=" + ("protectIncFileExe_" + (Decimal(i) + "_" + Decimal(j))), "key=" + ("." + parts[j]), "offset=-" + Decimal(|parts[j]| + 1)]
    ensures Fields(ExcPats(i, parts)[j]) ==
            ["name=" + ("protectExcFileExe_" + (Decimal(i) + "_" + Decimal(j))), "key=" + ("." + parts[j]), "offset=-" + Decimal(|parts[j]| + 1)]
  {
    hide Decimal, AttrTexts;
    AttrTextsAre([]);
    ThreeTexts(FromEnd(|parts[j]| + 1), CaseOffset, CaseOffset);
  }

  // ---------------------------------------------------------------- reading a table back

  ghost predicate Free(s: string) {
    COMMA !in s && NEWLINE !in s
  }

  ghost predicate FreeFields(fs: seq<string>) {
    forall i :: 0 <= i < |fs| ==> Free(fs[i])
  }

  lemma {:induction false} SplitPrefix(a: string, rest: string, sep: char)
    requires sep !in a
    ensures Split(a + [sep] + rest, sep) == [a] + Split(rest, sep)
  {
    var s := a + [sep] + rest;
    if a == [] {
      assert s[1..] == rest;
    } else {
      SplitPrefix(a[1..], rest, sep);
      assert s[1..] == a[1..] + [sep] + rest && s[0] == a[0] && s[0] in a;
      assert [a[0]] + a[1..] == a;
    }
  }

  lemma {:induction false} SplitNothing(a: string, sep: char)
    requires sep !in a
    ensures Split(a, sep) == [a]
  {
    if a != [] {
      assert a[0] in a;
      SplitNothing(a[1..], sep);
      assert [a[0]] + a[1..] == a;
    }
  }

  /** Joining parts free of the separator can be undone. */
  lemma {:induction false} JoinThenSplit(parts: seq<string>, sep: char)
    requires parts != [] && forall i :: 0 <= i < |parts| ==> sep !in parts[i]
    ensures Split(Join(parts, sep), sep) == parts
  {
    if |parts| == 1 {
      SplitNothing(parts[0], sep);
    } else {
      JoinThenSplit(parts[1..], sep);
      SplitPrefix(parts[0], Join(parts[1..], sep), sep);
    }
  }

  lemma {:induction false} JoinFree(fs: seq<string>)
    requires fs != [] && FreeFields(fs)
    ensures NEWLINE !in Join(fs, COMMA)
  {
    if |fs| > 1 {
      JoinFree(fs[1..]);
    }
  }

  lemma JoinInjective(fs: seq<string>, fs': seq<string>)
    requires fs != [] && fs' != [] && FreeFields(fs) && FreeFields(fs') && Join(fs, COMMA) == Join(fs', COMMA)
    ensures fs == fs'
  {
    JoinThenSplit(fs, COMMA);
    JoinThenSplit(fs', COMMA);
  }

  ghost predicate FreeRows(rows: seq<seq<string>>) {
    forall i :: 0 <= i < |rows| ==> rows[i] != [] && FreeFields(rows[i])
  }

  lemma FirstLine(a: string, rest: string, a': string, rest': string)
    requires NEWLINE !in a && NEWLINE !in a' && a + [NEWLINE] + rest == a' + [NEWLINE] + rest'
    ensures a == a' && rest == rest'
  {
    SplitPrefix(a, rest, NEWLINE);
    SplitPrefix(a', rest', NEWLINE);
    var s := a + [NEWLINE] + rest;
    assert a == Split(s, NEWLINE)[0] && a' == Split(s, NEWLINE)[0];
    assert rest == s[|a| + 1..] && rest' == s[|a| + 1..];
  }

  lemma {:induction false} TableInjective(rows: seq<seq<string>>, rows': seq<seq<string>>)
    requires FreeRows(rows) && FreeRows(rows') && Table(rows) == Table(rows')
    ensures rows == rows'
  {
    if rows != [] && rows' != [] {
      JoinFree(rows[0]);
      JoinFree(rows'[0]);
      FirstLine(Join(rows[0], COMMA), Table(rows[1..]), Join(rows'[0], COMMA), Table(rows'[1..]));
      JoinInjective(rows[0], rows'[0]);
      TableInjective(rows[1..], rows'[1..]);
    }
  }

  // ---------------------------------------------------------------- fields determine the row

  lemma AttrInjective(a: Attr, b: Attr)
    requires AttrText(a) == AttrText(b)
    ensures a == b
  {
    assert AttrText(a)[0] == AttrText(b)[0];
    match a
    case Depth(n) =>
      SamePrefix("depth=", Decimal(n), Decimal(b.n));
      DecimalInjective(n, b.n);
    case FromEnd(n) =>
      SamePrefix("offset=-", Decimal(n), Decimal(b.n));
      DecimalInjective(n, b.n);
    case _ =>
  }

  lemma AttrsInjective(a: seq<Attr>, b: seq<Attr>)
    requires AttrTexts(a) == AttrTexts(b)
    ensures a == b
  {
    hide AttrText;
    assert |a| == |b|;
    forall i | 0 <= i < |a|
      ensures a[i] == b[i]
    {
      assert AttrTexts(a)[i] == AttrTexts(b)[i];
      AttrInjective(a[i], b[i]);
    }
  }

  predicate CaseFirst(p: Pattern) {
    p.name.Exiport? && p.attrs != [] && p.attrs[0] == CaseOffset
  }

  /** A row's fields tell its name, its key and its attributes. */
  lemma FieldsInjective(p: Pattern, q: Pattern)
    requires Fields(p) == Fields(q)
    ensures p == q
  {
    hide Text, AttrText, AttrTexts;
    var f, g := Fields(p), Fields(q);
    assert f[0] == g[0];
    SamePrefix("name=", Text(p.name), Text(q.name));
    TextInjective(p.name, q.name);
    if p.name.ProtectDir? {
      assert f[2] == g[2];
      SamePrefix("key=", p.key, q.key);
      assert f[3..] == AttrTexts(p.attrs) && g[3..] == AttrTexts(q.attrs);
      AttrsInjective(p.attrs, q.attrs);
    } else {
      assert f[1] == g[1] && f[1][0] == g[1][0];
      assert CaseFirst(p) <==> CaseFirst(q);
      if CaseFirst(p) {
        assert f[2] == g[2];
        SamePrefix("key=", p.key, q.key);
        assert f[3..] == AttrTexts(p.attrs[1..]) && g[3..] == AttrTexts(q.attrs[1..]);
        AttrsInjective(p.attrs[1..], q.attrs[1..]);
        assert p.attrs == [p.attrs[0]] + p.attrs[1..] && q.attrs == [q.attrs[0]] + q.attrs[1..];
      } else {
        SamePrefix("key=", p.key, q.key);
        assert f[2..] == AttrTexts(p.attrs) && g[2..] == AttrTexts(q.attrs);
        AttrsInjective(p.attrs, q.attrs);
      }
    }
  }

  lemma DecimalFree(n: nat)
    ensures Free(Decimal(n))
  {
    assert !IsDigit(COMMA) && !IsDigit(NEWLINE);
  }

  lemma JoinedFree(a: string, b: string)
    requires Free(a) && Free(b)
    ensures Free(a + b)
  {
  }

  lemma AttrFree(a: Attr)
    ensures Free(AttrText(a))
  {
    hide Decimal;
    match a
    case Depth(n) =>
      DecimalFree(n);
      JoinedFree("depth=", Decimal(n));
    case FromEnd(n) =>
      DecimalFree(n);
      JoinedFree("offset=-", Decimal(n));
    case _ =>
  }

  lemma PairFree(i: nat, j: nat)
    ensures Free(Decimal(i) + "_" + Decimal(j))
  {
    hide Decimal;
    DecimalFree(i);
    DecimalFree(j);
  }

  lemma NameFree(n: Name)
    ensures Free(Text(n))
  {
    hide Decimal;
    DecimalFree(n.i);
    match n
    case SelfName(i) => JoinedFree("self_", Decimal(i));
    case TrueDir(i) => JoinedFree("trueDir_", Decimal(i));
    case Exiport(i) => JoinedFree("exiportInfo_", Decimal(i));
    case ProtectDir(i) => JoinedFree("ProtectDir_", Decimal(i));
    case ExcludeDir(i, j) =>
      PairFree(i, j);
      JoinedFree("protectExcludeDir_", Decimal(i) + "_" + Decimal(j));
    case IncFileExe(i, j) =>
      PairFree(i, j);
      JoinedFree("protectIncFileExe_", Decimal(i) + "_" + Decimal(j));
    case ExcFileExe(i, j) =>
      PairFree(i, j);
      JoinedFree("protectExcFileExe_", Decimal(i) + "_" + Decimal(j));
  }

  lemma FieldsFree(p: Pattern)
    requires Free(p.key)
    ensures FreeFields(Fields(p))
  {
    hide Text, AttrText;
    NameFree(p.name);
    forall a
      ensures Free(AttrText(a))
    {
      AttrFree(a);
    }
  }

  lemma PatternTextInjective(a: seq<Pattern>, b: seq<Pattern>)
    requires Table(PatternRows(a)) == Table(PatternRows(b))
    requires forall p :: p in a || p in b ==> Free(p.key)
    ensures a == b
  {
    hide Fields, Free, Table;
    forall p | p in a || p in b
      ensures FreeFields(Fields(p))
    {
      FieldsFree(p);
    }
    TableInjective(PatternRows(a), PatternRows(b));
    forall i | 0 <= i < |a|
      ensures a[i] == b[i]
    {
      assert PatternRows(a)[i] == PatternRows(b)[i];
      FieldsInjective(a[i], b[i]);
    }
  }

  lemma ProcTextInjective(a: seq<ProcRow>, b: seq<ProcRow>)
    requires Table(ProcRows(a)) == Table(ProcRows(b))
    requires forall q :: q in a || q in b ==> Free(q.hash)
    ensures a == b
  {
    hide Table, Decimal;
    TableInjective(ProcRows(a), ProcRows(b));
    forall i | 0 <= i < |a|
      ensures a[i] == b[i]
    {
      var f, g := ProcRows(a)[i], ProcRows(b)[i];
      assert f[0] == g[0] && f[1] == g[1] && f[2] == g[2];
      DecimalInjective(a[i].number, b[i].number);
      DecimalInjective(a[i].tag, b[i].tag);
    }
  }

  ghost predicate FreeKeys(pats: seq<Pattern>) {
    forall p :: p in pats ==> Free(p.key)
  }

  ghost predicate FreeHashes(procs: seq<ProcRow>) {
    forall q :: q in procs ==> Free(q.hash)
  }

  ghost predicate Clean(c: Compared) {
    && FreeKeys(c.self) && FreeKeys(c.trust) && FreeKeys(c.exiport) && FreeKeys(c.protect)
    && FreeKeys(c.white) && FreeKeys(c.inc) && FreeKeys(c.exc)
    && FreeHashes(c.exiportProcs) && FreeHashes(c.protectProcs)
  }

  /** Comparing the generated texts is comparing the rows. */
  lemma TextDecides(c: Compared, c': Compared)
    requires Clean(c) && Clean(c')
    ensures Texts(c) == Texts(c') <==> c == c'
  {
    hide Table;
    if Texts(c) == Texts(c') {
      var t, t' := Texts(c), Texts(c');
      assert forall i :: 0 <= i < 9 ==> t[i] == t'[i];
      assert t[0] == t'[0] && t[1] == t'[1] && t[2] == t'[2] && t[3] == t'[3] && t[4] == t'[4];
      assert t[5] == t'[5] && t[6] == t'[6] && t[7] == t'[7] && t[8] == t'[8];
      PatternTextInjective(c.self, c'.self);
      PatternTextInjective(c.trust, c'.trust);
      PatternTextInjective(c.exiport, c'.exiport);
      PatternTextInjective(c.protect, c'.protect);
      PatternTextInjective(c.white, c'.white);
      PatternTextInjective(c.inc, c'.inc);
      PatternTextInjective(c.exc, c'.exc);
      ProcTextInjective(c.exiportProcs, c'.exiportProcs);
      ProcTextInjective(c.protectProcs, c'.protectProcs);
    }
  }

  // ---------------------------------------------------------------- where clean rows come from

  /** A call whose policies in use have no separator in a field; the hash list of a directory
      is itself separated by commas. */
  ghost predicate FreeCall(c: Call) {
    match c
    case SetGlobalTrustDir(ds) => forall d :: d in Taken(ds) ==> Free(d.dir)
    case SetExiportDir(es) => forall e :: e in Taken(es) ==> FreeExport(e)
    case SetProtectDir(ds) => forall d :: d in Taken(ds) ==> FreeProtect(d)
    case _ => true
  }

  ghost predicate FreeExport(e: Export) {
    Free(e.fileType) && FreeFields(e.hashes)
  }

  ghost predicate FreeProtect(d: Protect) {
    Free(d.dir) && Free(d.isWhite) && Free(d.includeFile) && Free(d.fileExt) && NEWLINE !in d.whiteHash
  }

  /** Splitting brings no new characters. */
  lemma {:induction false} SplitKeepsOut(s: string, sep: char, c: char)
    requires c !in s
    ensures forall i :: 0 <= i < |Split(s, sep)| ==> c !in Split(s, sep)[i]
  {
    if s != [] {
      SplitKeepsOut(s[1..], sep, c);
    }
  }

  lemma PartsFree(s: string, sep: char)
    requires Free(s)
    ensures FreeFields(Parts(s, sep))
  {
    SplitKeepsOut(s, sep, COMMA);
    SplitKeepsOut(s, sep, NEWLINE);
  }

  lemma HashesFree(s: string)
    requires NEWLINE !in s
    ensures FreeFields(Split(s, COMMA))
  {
    SplitThenJoin(s, COMMA);
    SplitKeepsOut(s, COMMA, NEWLINE);
  }

  lemma FreeConcat(a: seq<Pattern>, b: seq<Pattern>)
    requires FreeKeys(a) && FreeKeys(b)
    ensures FreeKeys(a + b)
  {
  }

  lemma ProcsFree(a: seq<ProcRow>, hashes: seq<string>, number: nat, tag: nat)
    requires FreeHashes(a) && FreeFields(hashes)
    ensures FreeHashes(a + Procs(hashes, number, tag))
  {
    var rows := Procs(hashes, number, tag);
    forall q | q in a + rows
      ensures Free(q.hash)
    {
      if q !in a {
        var i :| 0 <= i < |rows| && rows[i] == q;
        assert Free(hashes[i]);
      }
    }
  }

  lemma {:induction false} TrustFree(ds: seq<TrustDir>, n: nat)
    requires n <= |ds| && forall d :: d in ds ==> Free(d.dir)
    ensures FreeKeys(TrustUpTo(ds, n).pats)
  {
    hide Free;
    if n > 0 {
      TrustFree(ds, n - 1);
      assert ds[n - 1] in ds;
    }
  }

  lemma SuffixFree(s: string)
    requires Free(s)
    ensures Free("." + s)
  {
    JoinedFree(".", s);
  }

  lemma ExportStepFree(x: ExportRows, i: nat, e: Export)
    requires FreeKeys(x.fam.pats) && FreeHashes(x.procs) && FreeExport(e)
    ensures FreeKeys(ExportStep(x, i, e).fam.pats) && FreeHashes(ExportStep(x, i, e).procs)
  {
    hide FreeKeys, FreeHashes, Free, Procs, FreeFields;
    SuffixFree(e.fileType);
    var y := ExportStep(x, i, e);
    ProcsFree(x.procs, e.hashes, y.number, 99);
    assert x.procs + [] == x.procs;
    var pat := y.fam.pats[|x.fam.pats|];
    OneFree(pat);
    FreeConcat(x.fam.pats, [pat]);
  }

  lemma {:induction false} ExportFree(es: seq<Export>, n: nat)
    requires n <= |es| && forall e :: e in es ==> FreeExport(e)
    ensures FreeKeys(ExportUpTo(es, n).fam.pats) && FreeHashes(ExportUpTo(es, n).procs)
  {
    hide FreeExport, ExportStep;
    if n > 0 {
      ExportFree(es, n - 1);
      assert es[n - 1] in es;
      hide FreeKeys, FreeHashes;
      ExportStepFree(ExportUpTo(es, n - 1), n - 1, es[n - 1]);
    }
  }

  lemma OneFree(p: Pattern)
    requires Free(p.key)
    ensures FreeKeys([p])
  {
  }

  /** The patterns made from the parts of a list field. */
  lemma PartPatsFree(i: nat, parts: seq<string>)
    requires FreeFields(parts)
    ensures FreeKeys(WhitePats(i, parts)) && FreeKeys(IncPats(i, parts)) && FreeKeys(ExcPats(i, parts))
  {
    forall j | 0 <= j < |parts|
      ensures Free(WhitePats(i, parts)[j].key) && Free(IncPats(i, parts)[j].key) && Free(ExcPats(i, parts)[j].key)
    {
      SuffixFree(parts[j]);
    }
  }

  ghost predicate FreeProtects(x: ProtectRows) {
    && FreeKeys(x.dirs.pats) && FreeKeys(x.white.pats) && FreeKeys(x.inc.pats) && FreeKeys(x.exc.pats)
    && FreeHashes(x.procs)
  }

  lemma ProtectStepFree(x: ProtectRows, i: nat, d: Protect)
    requires FreeProtects(x) && FreeProtect(d)
    ensures FreeProtects(ProtectStep(x, i, d))
  {
    hide FreeKeys, FreeHashes, Free, Procs, FreeFields, DirRules, WhitePats, WhiteRules, IncPats, IncRules, ExcPats, ExcRules, Parts, Split;
    var white, inc := Parts(d.isWhite, '|'), Parts(d.includeFile, '|');
    var exc := if d.includeFile == "" then Parts(d.fileExt, '|') else [];
    PartsFree(d.isWhite, '|');
    PartsFree(d.includeFile, '|');
    PartsFree(d.fileExt, '|');
    NoFieldsFree();
    PartPatsFree(i, white);
    PartPatsFree(i, inc);
    PartPatsFree(i, exc);
    OneFree(DirPattern(i, d));
    FreeConcat(x.dirs.pats, [DirPattern(i, d)]);
    FreeConcat(x.white.pats, WhitePats(i, white));
    FreeConcat(x.inc.pats, IncPats(i, inc));
    FreeConcat(x.exc.pats, ExcPats(i, exc));
    HashesFree(d.whiteHash);
    ProcsFree(x.procs, Split(d.whiteHash, ','), x.number + 1, 88);
    assert x.procs + [] == x.procs;
  }

  lemma NoFieldsFree()
    ensures FreeFields([])
  {
  }

  lemma {:induction false} ProtectFree(ds: seq<Protect>, n: nat)
    requires n <= |ds| && forall d :: d in ds ==> FreeProtect(d)
    ensures FreeProtects(ProtectUpTo(ds, n))
  {
    hide FreeProtect, ProtectStep;
    if n > 0 {
      ProtectFree(ds, n - 1);
      hide FreeProtects;
      assert ds[n - 1] in ds;
      ProtectStepFree(ProtectUpTo(ds, n - 1), n - 1, ds[n - 1]);
    }
  }

  lemma UnitKeysFree()
    ensures Free(SELF_KEYS[3]) && Free(SELF_KEYS[4])
  {
    JoinedFree("/etc/systemd/system/", "multi-user.target.wants/");
    JoinedFree(UNITS, "osec.");
    JoinedFree(UNITS, "agent_manager.");
  }

  lemma ShortKeysFree()
    ensures Free(SELF_KEYS[0]) && Free(SELF_KEYS[1]) && Free(SELF_KEYS[2])
  {
  }

  lemma SelfKeysFree()
    ensures FreeFields(SELF_KEYS)
  {
    hide Free;
    ShortKeysFree();
    UnitKeysFree();
  }

  lemma SelfFree()
    ensures FreeKeys(SelfFamily().pats)
  {
    hide Free;
    SelfKeysFree();
    var keys := SELF_KEYS;
    forall p | p in SelfFamily().pats
      ensures Free(p.key)
    {
      assert exists j :: 0 <= j < |keys| && p.key == keys[j];
    }
  }

  lemma NoRowsClean()
    ensures Clean(Compare(NO_ROWS))
  {
  }

  /** Calls with separator-free fields keep the rows free of separators. */
  lemma GeneratedClean(r: Rows, c: Call)
    requires Clean(Compare(r)) && FreeCall(c)
    ensures Clean(Compare(Generated(r, c)))
  {
    hide FreeKeys, FreeHashes, Free, TrustUpTo, ExportUpTo, SelfFamily, FreeExport, FreeProtect;
    match c
    case AddFilePattern(_) => SelfFree();
    case SetGlobalTrustDir(ds) => TrustFree(Taken(ds), |Taken(ds)|);
    case SetExiportDir(es) => ExportFree(Taken(es), |Taken(es)|);
    case ClearExiportDir => NoRowsClean();
    case SetProtectDir(ds) => ProtectFree(Taken(ds), |Taken(ds)|);
    case ClearProtectDir => NoRowsClean();
  }
}
